/** ftl/process/subprocess.hpp: the settings of a `Subprocess` and the environment they give its child. */
module Builder {
  import opened Clocks
  import opened Descriptors

  /** One call of env(key, value, replace). */
  datatype Call = Call(key: string, value: string, replace: bool)

  datatype Override = Override(key: string, value: string)

  /** A C environment entry for `key`; a name is looked up by its first entry. */
  function Entry(key: string, value: string): string {
    key + "=" + value
  }

  predicate Names(entry: string, key: string) {
    key + "=" <= entry
  }

  /** getenv over a list of entries. */
  function Lookup(entries: seq<string>, key: string): Option<string> {
    if entries == [] then None
    else if Names(entries[0], key) then Some(entries[0][|key| + 1..])
    else Lookup(entries[1..], key)
  }

  predicate ProperName(key: string) {
    '=' !in key
  }

  /**
    What a sequence of calls asks for: the last value set for `key`, unless a later call started the
    environment afresh; before any call, what the parent has.
   */
  function Asked(parent: seq<string>, calls: seq<Call>, key: string): Option<string> {
    if calls == [] then Lookup(parent, key)
    else
      var last := calls[|calls| - 1];
      if last.key == key then Some(last.value)
      else if last.replace then None
      else Asked(parent, calls[..|calls| - 1], key)
  }

  /** The effect of one call on the override list: an existing key keeps its place. */
  function WithOverride(os: seq<Override>, key: string, value: string): seq<Override> {
    if os == [] then [Override(key, value)]
    else if os[0].key == key then [Override(key, value)] + os[1..]
    else [os[0]] + WithOverride(os[1..], key, value)
  }

  /** Where `entries` first names `key`, replace that entry, or append one. */
  function WithEntry(entries: seq<string>, key: string, value: string): seq<string> {
    if entries == [] then [Entry(key, value)]
    else if Names(entries[0], key) then [Entry(key, value)] + entries[1..]
    else [entries[0]] + WithEntry(entries[1..], key, value)
  }

  function Merged(entries: seq<string>, os: seq<Override>): seq<string>
    decreases |os|
  {
    if os == [] then entries else Merged(WithEntry(entries, os[0].key, os[0].value), os[1..])
  }

  /** The part of a `Subprocess` that env() edits. */
  datatype Settings = Settings(overrides: seq<Override>, replaced: bool) {
    function After(c: Call): Settings {
      Settings(WithOverride(if c.replace then [] else overrides, c.key, c.value), replaced || c.replace)
    }

    function ChildEnv(parent: seq<string>): seq<string> {
      Merged(if replaced then [] else parent, overrides)
    }

    /** child_exec: without overrides it calls execvp, which passes on the parent's environment. */
    function ExecEnv(parent: seq<string>): seq<string> {
      if overrides == [] then parent else ChildEnv(parent)
    }
  }

  const UNSET := Settings([], false)

  function AfterCalls(calls: seq<Call>): Settings {
    if calls == [] then UNSET else AfterCalls(calls[..|calls| - 1]).After(calls[|calls| - 1])
  }

  class Subprocess {
    var envOverrides: seq<Override>
    var envReplace: bool
    var timeoutMs: int

    constructor ()
      ensures View() == UNSET && timeoutMs == 5000
    {
      envOverrides, envReplace, timeoutMs := [], false, 5000;
    }

    function View(): Settings
      reads this
    {
      Settings(envOverrides, envReplace)
    }

    method Env(key: string, value: string, replace: bool)
      modifies this`envOverrides, this`envReplace
      ensures View() == old(View()).After(Call(key, value, replace))
    {
      if replace {
        envOverrides := [];
        envReplace := true;
      }
      ghost var os := envOverrides;
      var i := 0;
      while i < |envOverrides|
        invariant 0 <= i <= |envOverrides| && envOverrides == os && envReplace == (replace || old(envReplace))
        invariant WithOverride(os, key, value) == os[..i] + WithOverride(os[i..], key, value)
      {
        if envOverrides[i].key == key {
          envOverrides := envOverrides[i := Override(key, value)];
          assert envOverrides == os[..i] + ([Override(key, value)] + os[i..][1..]);
          return;
        }
        assert os[..i] + ([os[i]] + WithOverride(os[i + 1..], key, value))
            == os[..i + 1] + WithOverride(os[i + 1..], key, value);
        assert os[i..][1..] == os[i + 1..];
        i := i + 1;
      }
      assert os[..i] == os && os[i..] == [];
      envOverrides := envOverrides + [Override(key, value)];
    }

    /** timeout_ms(): never below one millisecond. */
    method SetTimeoutMs(milliseconds: int)
      modifies this`timeoutMs
      ensures timeoutMs >= 1 && timeoutMs >= milliseconds && (timeoutMs == 1 || timeoutMs == milliseconds)
    {
      timeoutMs := if milliseconds < 1 then 1 else milliseconds;
    }

    /** timeout(), of a duration in nanoseconds: as many whole milliseconds as it holds, and at least one. */
    method SetTimeout(duration: int)
      modifies this`timeoutMs
      ensures timeoutMs >= 1 && duration < (timeoutMs + 1) * NS_PER_MS
      ensures timeoutMs == 1 || timeoutMs * NS_PER_MS <= duration
    {
      var milliseconds := ToMs(duration);
      timeoutMs := if milliseconds < 1 then 1 else milliseconds;
    }

    method BuildChildEnv(environ: seq<string>) returns (entries: seq<string>)
      ensures entries == View().ChildEnv(environ)
    {
      entries := [];
      if !envReplace {
        for e := 0 to |environ|
          invariant entries == environ[..e]
        {
          entries := entries + [environ[e]];
        }
      }
      ghost var start := if envReplace then [] else environ;
      assert entries == start;
      for n := 0 to |envOverrides|
        invariant Merged(start, envOverrides) == Merged(entries, envOverrides[n..])
      {
        var key, value := envOverrides[n].key, envOverrides[n].value;
        assert envOverrides[n..][0] == envOverrides[n] && envOverrides[n..][1..] == envOverrides[n + 1..];
        entries := Put(entries, key, value);
      }
    }

    /** The inner loop of build_child_env. */
    static method Put(entries: seq<string>, key: string, value: string) returns (r: seq<string>)
      ensures r == WithEntry(entries, key, value)
    {
      var i := 0;
      while i < |entries|
        invariant 0 <= i <= |entries|
        invariant WithEntry(entries, key, value) == entries[..i] + WithEntry(entries[i..], key, value)
      {
        if Names(entries[i], key) {
          r := entries[i := Entry(key, value)];
          assert r == entries[..i] + ([Entry(key, value)] + entries[i..][1..]);
          return;
        }
        assert entries[i..][1..] == entries[i + 1..];
        assert entries[..i] + ([entries[i]] + WithEntry(entries[i + 1..], key, value))
            == entries[..i + 1] + WithEntry(entries[i + 1..], key, value);
        i := i + 1;
      }
      assert entries[..i] == entries && entries[i..] == [];
      r := entries + [Entry(key, value)];
    }
  }

  /** An entry names only one proper key. */
  lemma NamesOneKey(entry: string, a: string, b: string)
    requires ProperName(a) && ProperName(b) && Names(entry, a) && Names(entry, b)
    ensures a == b
  {
    assert entry[|a|] == '=' && entry[|b|] == '=';
    assert forall i :: 0 <= i < |a| ==> entry[i] == a[i] && entry[i] in a;
    assert forall i :: 0 <= i < |b| ==> entry[i] == b[i] && entry[i] in b;
    assert |a| == |b|;
  }

  lemma {:induction false} LookupWithEntry(entries: seq<string>, key: string, value: string, k: string)
    requires ProperName(key) && ProperName(k)
    ensures Lookup(WithEntry(entries, key, value), k) == if k == key then Some(value) else Lookup(entries, k)
  {
    var e := Entry(key, value);
    assert Names(e, key) && e[|key| + 1..] == value;
    if Names(e, k) {
      NamesOneKey(e, key, k);
    }
    if entries == [] {
      assert [e][1..] == [];
    } else if Names(entries[0], key) {
      assert ([e] + entries[1..])[1..] == entries[1..];
      if Names(entries[0], k) {
        NamesOneKey(entries[0], key, k);
      }
    } else {
      LookupWithEntry(entries[1..], key, value, k);
      assert ([entries[0]] + WithEntry(entries[1..], key, value))[1..] == WithEntry(entries[1..], key, value);
    }
  }

  /** The first entry that names the key is replaced in its place, and no other; without one, one is added. */
  lemma {:induction false} EntryIsReplacedInPlace(entries: seq<string>, key: string, value: string)
    ensures forall i :: FirstNaming(entries, key, i) ==>
              WithEntry(entries, key, value) == entries[i := key + "=" + value]
    ensures Count(entries, key) == 0 ==> WithEntry(entries, key, value) == entries + [key + "=" + value]
  {
    if entries != [] && !Names(entries[0], key) {
      EntryIsReplacedInPlace(entries[1..], key, value);
      var rest := WithEntry(entries[1..], key, value);
      assert entries == [entries[0]] + entries[1..];
      forall i | FirstNaming(entries, key, i) ensures [entries[0]] + rest == entries[i := key + "=" + value] {
        assert FirstNaming(entries[1..], key, i - 1);
      }
    }
  }

  ghost predicate FirstNaming(entries: seq<string>, key: string, i: int) {
    && 0 <= i < |entries| && Names(entries[i], key)
    && forall j :: 0 <= j < i ==> !Names(entries[j], key)
  }

  /** How often a list names a key. */
  function Count(entries: seq<string>, key: string): nat {
    if entries == [] then 0 else (if Names(entries[0], key) then 1 else 0) + Count(entries[1..], key)
  }

  lemma {:induction false} CountWithEntry(entries: seq<string>, key: string, value: string, k: string)
    requires ProperName(key) && ProperName(k)
    ensures Count(WithEntry(entries, key, value), k)
         == if k == key && Count(entries, k) == 0 then 1 else Count(entries, k)
  {
    var e := Entry(key, value);
    assert Names(e, key);
    if Names(e, k) {
      NamesOneKey(e, key, k);
    }
    if entries == [] {
      assert [e][1..] == [];
    } else if Names(entries[0], key) {
      assert ([e] + entries[1..])[1..] == entries[1..];
      if Names(entries[0], k) {
        NamesOneKey(entries[0], key, k);
      }
    } else {
      CountWithEntry(entries[1..], key, value, k);
      assert ([entries[0]] + WithEntry(entries[1..], key, value))[1..] == WithEntry(entries[1..], key, value);
    }
  }

  ghost predicate DistinctKeys(os: seq<Override>) {
    forall i, j :: 0 <= i < j < |os| ==> os[i].key != os[j].key
  }

  ghost predicate ProperKeys(os: seq<Override>) {
    forall i :: 0 <= i < |os| ==> ProperName(os[i].key)
  }

  function Overriding(os: seq<Override>, k: string): Option<string> {
    if os == [] then None else if os[0].key == k then Some(os[0].value) else Overriding(os[1..], k)
  }

  lemma {:induction false} LookupMerged(entries: seq<string>, os: seq<Override>, k: string)
    requires DistinctKeys(os) && ProperKeys(os) && ProperName(k)
    ensures Lookup(Merged(entries, os), k) == if Overriding(os, k).Some? then Overriding(os, k) else Lookup(entries, k)
    decreases |os|
  {
    if os != [] {
      LookupWithEntry(entries, os[0].key, os[0].value, k);
      LookupMerged(WithEntry(entries, os[0].key, os[0].value), os[1..], k);
      if os[0].key == k {
        NotOverridden(os[1..], k);
      }
    }
  }

  lemma {:induction false} NotOverridden(os: seq<Override>, k: string)
    requires forall i :: 0 <= i < |os| ==> os[i].key != k
    ensures Overriding(os, k) == None
  {
    if os != [] {
      NotOverridden(os[1..], k);
    }
  }

  lemma {:induction false} CountMerged(entries: seq<string>, os: seq<Override>, k: string)
    requires ProperKeys(os) && ProperName(k)
    ensures Count(Merged(entries, os), k)
         == if Overriding(os, k).Some? && Count(entries, k) == 0 then 1 else Count(entries, k)
    decreases |os|
  {
    if os != [] {
      CountWithEntry(entries, os[0].key, os[0].value, k);
      CountMerged(WithEntry(entries, os[0].key, os[0].value), os[1..], k);
    }
  }

  /** An override keeps its place when its value is set again, and a new one comes last. */
  lemma {:induction false} OverrideKeepsItsPlace(os: seq<Override>, key: string, value: string)
    requires DistinctKeys(os)
    ensures forall i :: 0 <= i < |os| && os[i].key == key ==>
              WithOverride(os, key, value) == os[i := Override(key, value)]
    ensures (forall i :: 0 <= i < |os| ==> os[i].key != key) ==>
              WithOverride(os, key, value) == os + [Override(key, value)]
  {
    if os != [] && os[0].key != key {
      OverrideKeepsItsPlace(os[1..], key, value);
      var rest := WithOverride(os[1..], key, value);
      assert os == [os[0]] + os[1..];
      forall i | 0 <= i < |os| && os[i].key == key ensures [os[0]] + rest == os[i := Override(key, value)] {
        assert os[1..][i - 1] == os[i];
      }
    }
  }

  /** Setting a key brings in no other, and no key comes to stand twice. */
  lemma {:induction false} KeysSet(os: seq<Override>, key: string, value: string)
    requires DistinctKeys(os)
    ensures DistinctKeys(WithOverride(os, key, value))
    ensures forall o :: o in WithOverride(os, key, value) ==> o.key == key || o in os
  {
    if os != [] && os[0].key != key {
      KeysSet(os[1..], key, value);
      var rest := WithOverride(os[1..], key, value);
      assert forall o :: o in rest ==> o.key != os[0].key;
      assert forall i :: 0 <= i < |rest| ==> rest[i] in rest;
    }
  }

  /** Setting a key changes what that key is set to, and nothing else. */
  lemma {:induction false} ValueSet(os: seq<Override>, key: string, value: string, k: string)
    ensures Overriding(WithOverride(os, key, value), k) == if k == key then Some(value) else Overriding(os, k)
  {
    if os != [] && os[0].key != key {
      ValueSet(os[1..], key, value, k);
      assert ([os[0]] + WithOverride(os[1..], key, value))[1..] == WithOverride(os[1..], key, value);
    } else if os != [] {
      assert ([Override(key, value)] + os[1..])[1..] == os[1..];
    }
  }

  ghost predicate ProperCalls(calls: seq<Call>) {
    forall i :: 0 <= i < |calls| ==> ProperName(calls[i].key)
  }

  /** Override keys stay distinct, and an environment started afresh is never left empty. */
  lemma {:induction false} BuilderInvariant(calls: seq<Call>)
    ensures DistinctKeys(AfterCalls(calls).overrides)
    ensures AfterCalls(calls).replaced ==> AfterCalls(calls).overrides != []
    ensures ProperCalls(calls) ==> ProperKeys(AfterCalls(calls).overrides)
    decreases |calls|
  {
    if calls != [] {
      var before := AfterCalls(calls[..|calls| - 1]);
      BuilderInvariant(calls[..|calls| - 1]);
      var c := calls[|calls| - 1];
      KeysSet(if c.replace then [] else before.overrides, c.key, c.value);
      var os := AfterCalls(calls).overrides;
      assert forall i :: 0 <= i < |os| ==> os[i] in os;
    }
  }

  function Remembered(parent: seq<string>, s: Settings, k: string): Option<string> {
    if Overriding(s.overrides, k).Some? then Overriding(s.overrides, k)
    else if s.replaced then None
    else Lookup(parent, k)
  }

  /** The override list remembers exactly what Asked takes from the calls alone. */
  lemma {:induction false} OverridingIsAsked(parent: seq<string>, calls: seq<Call>, k: string)
    ensures Asked(parent, calls, k) == Remembered(parent, AfterCalls(calls), k)
    decreases |calls|
  {
    if calls != [] {
      var c := calls[|calls| - 1];
      var before := AfterCalls(calls[..|calls| - 1]);
      OverridingIsAsked(parent, calls[..|calls| - 1], k);
      ValueSet(if c.replace then [] else before.overrides, c.key, c.value, k);
    }
  }

  /** The shortcut for an empty override list is sound: execvp passes on what would have been built. */
  lemma EmptyOverridesShortcut(parent: seq<string>, calls: seq<Call>)
    ensures AfterCalls(calls).ExecEnv(parent) == AfterCalls(calls).ChildEnv(parent)
  {
    BuilderInvariant(calls);
  }

  /** The child sees for every name what the calls asked for. */
  lemma ChildSeesWhatWasAsked(parent: seq<string>, calls: seq<Call>, k: string)
    requires ProperCalls(calls) && ProperName(k)
    ensures Lookup(AfterCalls(calls).ExecEnv(parent), k) == Asked(parent, calls, k)
  {
    var s := AfterCalls(calls);
    EmptyOverridesShortcut(parent, calls);
    BuilderInvariant(calls);
    OverridingIsAsked(parent, calls, k);
    LookupMerged(if s.replaced then [] else parent, s.overrides, k);
  }

  /**
    A name stands in the child's environment as often as it was inherited, and once if the calls
    brought it in: so exactly once if it was asked for and the parent has it at most once.
   */
  lemma ChildHasNoDoubles(parent: seq<string>, calls: seq<Call>, k: string)
    requires ProperCalls(calls) && ProperName(k)
    ensures var s := AfterCalls(calls);
            var inherited := Count(if s.replaced then [] else parent, k);
            Count(s.ExecEnv(parent), k) == if Overriding(s.overrides, k).Some? && inherited == 0 then 1 else inherited
    ensures Count(parent, k) <= 1 && Asked(parent, calls, k).Some? ==>
              Count(AfterCalls(calls).ExecEnv(parent), k) == 1
  {
    var s := AfterCalls(calls);
    EmptyOverridesShortcut(parent, calls);
    BuilderInvariant(calls);
    CountMerged(if s.replaced then [] else parent, s.overrides, k);
    OverridingIsAsked(parent, calls, k);
    FoundIsCounted(parent, k);
  }

  lemma {:induction false} FoundIsCounted(entries: seq<string>, k: string)
    ensures Lookup(entries, k).Some? <==> Count(entries, k) > 0
  {
    if entries != [] {
      FoundIsCounted(entries[1..], k);
    }
  }

  /** A key with '=' in it sets another name: one call keeps to its name exactly when its key has none. */
  lemma KeyKeepsToItsName(call: Call)
    ensures (forall parent, k :: ProperName(k) ==>
               Lookup(UNSET.After(call).ExecEnv(parent), k) == Asked(parent, [call], k))
       <==> ProperName(call.key)
  {
    assert [call][..0] == [];
    assert AfterCalls([call]) == UNSET.After(call);
    if ProperName(call.key) {
      forall parent, k | ProperName(k)
        ensures Lookup(UNSET.After(call).ExecEnv(parent), k) == Asked(parent, [call], k)
      {
        ChildSeesWhatWasAsked(parent, [call], k);
      }
    } else {
      var k := SetsAnother(call);
    }
  }

  /** Added to an empty environment, such a call sets the name before the '='. */
  lemma SetsAnother(call: Call) returns (k: string)
    requires !ProperName(call.key)
    ensures ProperName(k) && Lookup(UNSET.After(call).ExecEnv([]), k) != Asked([], [call], k)
  {
    var i := FirstEquals(call.key);
    k := call.key[..i];
    var e := Entry(call.key, call.value);
    assert e[..i + 1] == k + "=";
    assert Names(e, k);
    var one := [Override(call.key, call.value)];
    assert UNSET.After(call).overrides == one && one[1..] == [];
    assert Merged([], one) == Merged(WithEntry([], call.key, call.value), one[1..]) == [e];
    assert [call][..0] == [];
  }

  lemma FirstEquals(key: string) returns (i: nat)
    requires '=' in key
    ensures i < |key| && key[i] == '=' && '=' !in key[..i]
  {
    i := 0;
    while key[i] != '='
      invariant i < |key| && '=' !in key[..i] && '=' in key[i..]
      decreases |key| - i
    {
      i := i + 1;
    }
  }

  /** The entries that name none of `os`, in order. */
  function Others(entries: seq<string>, os: seq<Override>): seq<string> {
    if entries == [] then []
    else if exists o :: o in os && Names(entries[0], o.key) then Others(entries[1..], os)
    else [entries[0]] + Others(entries[1..], os)
  }

  lemma {:induction false} OthersWithEntry(entries: seq<string>, o: Override, os: seq<Override>)
    requires o in os
    ensures Others(WithEntry(entries, o.key, o.value), os) == Others(entries, os)
  {
    var e := Entry(o.key, o.value);
    assert Names(e, o.key);
    if entries == [] {
      assert [e][1..] == [];
    } else if Names(entries[0], o.key) {
      assert ([e] + entries[1..])[1..] == entries[1..];
    } else {
      OthersWithEntry(entries[1..], o, os);
      assert ([entries[0]] + WithEntry(entries[1..], o.key, o.value))[1..] == WithEntry(entries[1..], o.key, o.value);
    }
  }

  /** Entries of names that are not overridden keep their text and their order. */
  lemma {:induction false} OthersKept(entries: seq<string>, done: seq<Override>, os: seq<Override>)
    ensures Others(Merged(entries, os), done + os) == Others(entries, done + os)
    decreases |os|
  {
    if os != [] {
      assert done + os == (done + [os[0]]) + os[1..];
      OthersKept(WithEntry(entries, os[0].key, os[0].value), done + [os[0]], os[1..]);
      OthersWithEntry(entries, os[0], done + os);
    }
  }

  lemma ChildKeepsOtherEntries(parent: seq<string>, calls: seq<Call>)
    requires forall i :: 0 <= i < |calls| ==> !calls[i].replace
    ensures var s := AfterCalls(calls); Others(s.ExecEnv(parent), s.overrides) == Others(parent, s.overrides)
  {
    EmptyOverridesShortcut(parent, calls);
    NeverReplaced(calls);
    OthersKept(parent, [], AfterCalls(calls).overrides);
    assert [] + AfterCalls(calls).overrides == AfterCalls(calls).overrides;
  }

  lemma {:induction false} NeverReplaced(calls: seq<Call>)
    requires forall i :: 0 <= i < |calls| ==> !calls[i].replace
    ensures !AfterCalls(calls).replaced
    decreases |calls|
  {
    if calls != [] {
      NeverReplaced(calls[..|calls| - 1]);
    }
  }
}
