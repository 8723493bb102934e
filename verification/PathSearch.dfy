/** ftl/process/subprocess.hpp, `execve_portable`: a program looked for along the child's PATH. */
module PathSearch {
  import opened Descriptors
  import opened Builder

  /** std::string::find for ':', from `start`. */
  function FindColon(path: string, start: nat): (r: Option<nat>)
    requires start <= |path|
    ensures r.Some? ==> start <= r.value < |path| && path[r.value] == ':' && ':' !in path[start..r.value]
    ensures r.None? ==> ':' !in path[start..]
    decreases |path| - start
  {
    if start == |path| then None
    else if path[start] == ':' then Some(start)
    else
      var r := FindColon(path, start + 1);
      assert r.Some? ==> path[start..r.value] == [path[start]] + path[start + 1..r.value];
      assert path[start..] == [path[start]] + path[start + 1..];
      r
  }

  lemma ColonFound(path: string, start: nat, i: nat)
    requires start <= i < |path| && path[i] == ':' && ':' !in path[start..i]
    ensures FindColon(path, start) == Some(i)
  {
    var r := FindColon(path, start);
    assert path[i] == path[start..][i - start];
    assert r.Some? ==> forall k :: start <= k < r.value ==> path[k] == path[start..r.value][k - start];
    assert forall k :: start <= k < i ==> path[k] == path[start..i][k - start];
  }

  lemma ColonNotFound(path: string, start: nat)
    requires start <= |path| && ':' !in path[start..]
    ensures FindColon(path, start) == None
  {
    assert forall k :: start <= k < |path| ==> path[k] == path[start..][k - start];
  }

  /** The segments of a colon-separated list; a list is never without one. */
  function Split(path: string): (segments: seq<string>)
    ensures |segments| >= 1
    decreases |path|
  {
    match FindColon(path, 0)
    case None => [path]
    case Some(i) => [path[..i]] + Split(path[i + 1..])
  }

  function Join(segments: seq<string>): string
    requires |segments| >= 1
  {
    if |segments| == 1 then segments[0] else segments[0] + ":" + Join(segments[1..])
  }

  function Colons(path: string): nat {
    if path == [] then 0 else (if path[0] == ':' then 1 else 0) + Colons(path[1..])
  }

  /** Splitting and joining are inverse: nothing of the list is lost, reordered or made up. */
  lemma {:induction false} JoinSplit(path: string)
    ensures Join(Split(path)) == path
    ensures forall i :: 0 <= i < |Split(path)| ==> ':' !in Split(path)[i]
    decreases |path|
  {
    match FindColon(path, 0)
    case None => assert path[0..] == path;
    case Some(i) =>
      JoinSplit(path[i + 1..]);
      var rest := Split(path[i + 1..]);
      assert path[0..i] == path[..i];
      assert ([path[..i]] + rest)[1..] == rest;
      assert path == path[..i] + ":" + path[i + 1..];
  }

  lemma {:induction false} SplitJoin(segments: seq<string>)
    requires |segments| >= 1 && forall i :: 0 <= i < |segments| ==> ':' !in segments[i]
    ensures Split(Join(segments)) == segments
    decreases |segments|
  {
    var path := Join(segments);
    if |segments| == 1 {
      ColonNotFound(path, 0);
    } else {
      SplitJoin(segments[1..]);
      var n := |segments[0]|;
      assert path[n] == ':';
      assert path[0..n] == segments[0];
      ColonFound(path, 0, n);
      assert path[..n] == segments[0] && path[n + 1..] == Join(segments[1..]);
      assert segments == [segments[0]] + segments[1..];
    }
  }

  lemma {:induction false} ColonsAppend(a: string, b: string)
    ensures Colons(a + b) == Colons(a) + Colons(b)
  {
    if a == [] {
      assert a + b == b;
    } else {
      ColonsAppend(a[1..], b);
      assert (a + b)[1..] == a[1..] + b;
    }
  }

  lemma {:induction false} NoColons(a: string)
    requires ':' !in a
    ensures Colons(a) == 0
  {
    if a != [] {
      NoColons(a[1..]);
    }
  }

  lemma {:induction false} SplitCount(path: string)
    ensures |Split(path)| == Colons(path) + 1
    decreases |path|
  {
    match FindColon(path, 0)
    case None =>
      assert path[0..] == path;
      NoColons(path);
    case Some(i) =>
      SplitCount(path[i + 1..]);
      assert path[0..i] == path[..i];
      NoColons(path[..i]);
      assert path == path[..i] + ([':'] + path[i + 1..]);
      ColonsAppend(path[..i], [':'] + path[i + 1..]);
      assert ([':'] + path[i + 1..])[1..] == path[i + 1..];
  }

  /** A segment as a directory; the empty one means the current directory. */
  function Directory(segment: string): (dir: string)
    ensures |dir| > 0 && dir[|dir| - 1] == '/'
    ensures segment == "" ==> dir == "./"
    ensures segment != "" ==> dir == if segment[|segment| - 1] == '/' then segment else segment + "/"
  {
    var dir := if segment == "" then "." else segment;
    if dir[|dir| - 1] != '/' then dir + "/" else dir
  }

  function Candidates(segments: seq<string>, program: string): (cs: seq<string>)
    ensures |cs| == |segments|
    ensures forall i :: 0 <= i < |cs| ==> cs[i] == Directory(segments[i]) + program
  {
    if segments == [] then [] else [Directory(segments[0]) + program] + Candidates(segments[1..], program)
  }

  const DEFAULT_PATH := "/usr/bin:/bin"

  function SearchPath(envp: seq<string>): string {
    match Lookup(envp, "PATH")
    case Some(path) => path
    case None => DEFAULT_PATH
  }

  /** The paths to try, in order. */
  function Attempts(program: string, envp: seq<string>): seq<string> {
    if '/' in program then [program] else Candidates(Split(SearchPath(envp)), program)
  }

  /** The loop that looks for the first PATH entry. */
  method PathOf(envp: seq<string>) returns (path: string)
    ensures path == SearchPath(envp)
  {
    path := DEFAULT_PATH;
    var e := 0;
    while e < |envp|
      invariant 0 <= e <= |envp| && path == DEFAULT_PATH
      invariant Lookup(envp, "PATH") == Lookup(envp[e..], "PATH")
    {
      assert envp[e..][1..] == envp[e + 1..];
      if Names(envp[e], "PATH") {
        path := envp[e][5..];
        break;
      }
      e := e + 1;
    }
  }

  /**
    execve_portable. `runs` says which paths execve(2) would succeed on; a call that succeeds does
    not return, so `tried` ends there.
   */
  method ExecvePortable(program: string, envp: seq<string>, runs: string -> bool)
    returns (tried: seq<string>, ran: bool)
    ensures tried <= Attempts(program, envp) && |tried| >= 1
    ensures forall i :: 0 <= i < |tried| - 1 ==> !runs(tried[i])
    ensures ran == runs(tried[|tried| - 1])
    ensures !ran ==> tried == Attempts(program, envp)
    ensures '/' in program ==> tried == [program]
    ensures '/' !in program ==>
              var dirs := Split(SearchPath(envp));
              && |tried| <= |dirs| && (!ran ==> |tried| == |dirs|)
              && forall i :: 0 <= i < |tried| ==> tried[i] == Directory(dirs[i]) + program
  {
    if '/' in program {
      return [program], runs(program);
    }
    var path := PathOf(envp);
    tried, ran := TryEach(path, program, runs);
  }

  /** The candidates from `start` on. */
  function Left(path: string, start: nat, program: string): seq<string>
    requires start <= |path|
  {
    Candidates(Split(path[start..]), program)
  }

  /** The candidate of the segment that begins at `start` and ends at `end`, or with the list. */
  function CandidateAt(path: string, start: nat, end: Option<nat>, program: string): string
    requires start <= |path| && (end.Some? ==> start <= end.value < |path|)
  {
    Directory(if end.None? then path[start..] else path[start..end.value]) + program
  }

  /** The loop over the directories of `path`. */
  method TryEach(path: string, program: string, runs: string -> bool) returns (tried: seq<string>, ran: bool)
    ensures tried <= Candidates(Split(path), program) && |tried| >= 1
    ensures forall i :: 0 <= i < |tried| - 1 ==> !runs(tried[i])
    ensures ran == runs(tried[|tried| - 1])
    ensures !ran ==> tried == Candidates(Split(path), program)
  {
    hide Split, Candidates, FindColon, CandidateAt;
    assert Left(path, 0, program) == Candidates(Split(path), program) by {
      assert path[0..] == path;
    }
    hide Left;
    ghost var all := Candidates(Split(path), program);
    var start := 0;
    tried, ran := [], false;
    while start <= |path|
      invariant 0 <= start <= |path|
      invariant tried + Left(path, start, program) == all
      invariant forall i :: 0 <= i < |tried| ==> !runs(tried[i])
      decreases |path| - start
    {
      var end := FindColon(path, start);
      var candidate := CandidateAt(path, start, end, program);
      NextCandidate(path, start, program);
      AppendAssoc(tried, [candidate], LeftAfter(path, end, program));
      tried := tried + [candidate];
      ran := runs(candidate);
      if ran || end.None? {
        break;
      }
      start := end.value + 1;
    }
  }

  /** What is left after a segment that ends at `end`. */
  function LeftAfter(path: string, end: Option<nat>, program: string): seq<string>
    requires end.Some? ==> end.value < |path|
  {
    if end.None? then [] else Left(path, end.value + 1, program)
  }

  lemma NextCandidate(path: string, start: nat, program: string)
    requires start <= |path|
    ensures Left(path, start, program)
         == [CandidateAt(path, start, FindColon(path, start), program)]
          + LeftAfter(path, FindColon(path, start), program)
  {
    hide Split, Directory, FindColon, Candidates;
    SplitFrom(path, start);
    var end := FindColon(path, start);
    if end.None? {
      CandidatesCons(path[start..], [], program);
      assert Candidates([], program) == [];
    } else {
      CandidatesCons(path[start..end.value], Split(path[end.value + 1..]), program);
    }
  }

  lemma CandidatesCons(first: string, rest: seq<string>, program: string)
    ensures Candidates([first] + rest, program) == [Directory(first) + program] + Candidates(rest, program)
    ensures [first] + [] == [first]
  {
    assert ([first] + rest)[1..] == rest;
  }

  lemma AppendAssoc(a: seq<string>, b: seq<string>, c: seq<string>)
    ensures a + (b + c) == (a + b) + c
  {
  }

  /** Searching the rest of the list is searching a list of its own. */
  lemma SplitFrom(path: string, start: nat)
    requires start <= |path|
    ensures var end := FindColon(path, start);
            Split(path[start..])
            == if end.None? then [path[start..]] else [path[start..end.value]] + Split(path[end.value + 1..])
  {
    var rest := path[start..];
    var end := FindColon(path, start);
    if end.None? {
      assert rest[0..] == rest;
      ColonNotFound(rest, 0);
    } else {
      var i := end.value - start;
      assert rest[0..i] == path[start..end.value];
      ColonFound(rest, 0, i);
      assert rest[..i] == path[start..end.value] && rest[i + 1..] == path[end.value + 1..];
    }
  }

  lemma TwoCandidates(a: string, b: string, program: string)
    requires ':' !in a && ':' !in b
    ensures Candidates(Split(a + ":" + b), program) == [Directory(a) + program, Directory(b) + program]
  {
    assert [a, b][1..] == [b];
    assert Join([a, b]) == a + ":" + b;
    SplitJoin([a, b]);
  }

  lemma DirectoriesSpelled()
    ensures Directory("/usr/bin") == "/usr/bin/" && Directory("/bin") == "/bin/"
    ensures Directory("") == "./" && Directory("/b/") == "/b/"
  {
  }

  lemma DefaultSpelled()
    ensures DEFAULT_PATH == "/usr/bin" + ":" + "/bin" && ':' !in "/usr/bin" && ':' !in "/bin"
  {
  }

  /** The candidates in full, where the environment has no PATH. */
  lemma SearchWithoutPath(program: string, envp: seq<string>)
    requires '/' !in program && Lookup(envp, "PATH") == None
    ensures Attempts(program, envp) == ["/usr/bin/" + program, "/bin/" + program]
  {
    DefaultSpelled();
    DirectoriesSpelled();
    hide Directory, Split, Candidates, Lookup;
    TwoCandidates("/usr/bin", "/bin", program);
  }

  /** And for a PATH with an empty segment before one that ends in a slash; a second PATH does not matter. */
  lemma SearchOfPath(program: string)
    requires '/' !in program
    ensures Attempts(program, ["A=b", "PATH=:/b/", "PATH=/c"]) == ["./" + program, "/b/" + program]
  {
    FirstPathCounts();
    assert "" + ":" + "/b/" == ":/b/";
    DirectoriesSpelled();
    hide Directory, Split, Candidates, Lookup;
    TwoCandidates("", "/b/", program);
  }

  lemma FirstPathCounts()
    ensures Lookup(["A=b", "PATH=:/b/", "PATH=/c"], "PATH") == Some(":/b/")
  {
    var envp := ["A=b", "PATH=:/b/", "PATH=/c"];
    assert envp[1..] == ["PATH=:/b/", "PATH=/c"];
    assert "PATH" + "=" == "PATH=" && "A=b"[0] == 'A';
    assert "PATH=:/b/"[..5] == "PATH=" && "PATH=:/b/"[5..] == ":/b/";
  }

  /** The directories searched are those of the PATH that the child itself will see. */
  lemma SearchesTheChildsPath(parent: seq<string>, calls: seq<Call>)
    requires ProperCalls(calls)
    ensures SearchPath(AfterCalls(calls).ExecEnv(parent))
         == match Asked(parent, calls, "PATH") case Some(path) => path case None => DEFAULT_PATH
  {
    ChildSeesWhatWasAsked(parent, calls, "PATH");
  }
}
