/** Joining and splitting file paths. */
module FilePath {

  const SLASH: char := '/'

  predicate IsAbsolute(path: string) {
    path != "" && path[0] == SLASH
  }

  predicate EndsInSlash(path: string) {
    path != "" && path[|path| - 1] == SLASH
  }

  /** The two-argument JoinPath. */
  function JoinPath(path1: string, path2: string): string {
    if path1 == "" then path2
    else if path2 == "" then path1
    else if EndsInSlash(path1) then
      if IsAbsolute(path2) then path1 + path2[1..] else path1 + path2
    else
      if !IsAbsolute(path2) then path1 + [SLASH] + path2 else path1 + path2
  }

  // ----- The algebra of JoinPath -----

  /** The path with exactly the separator it needs at its end, and without one at its start. */
  function Trail(path: string): string {
    if EndsInSlash(path) then path else path + [SLASH]
  }

  function Lead(path: string): string {
    if IsAbsolute(path) then path[1..] else path
  }

  lemma JoinPathNormalForm(a: string, b: string)
    requires a != "" && b != ""
    ensures JoinPath(a, b) == Trail(a) + Lead(b)
  {
  }

  lemma TrailOfConcat(a: string, b: string)
    requires b != ""
    ensures Trail(a + b) == a + Trail(b)
  {
  }

  lemma LeadOfConcat(a: string, b: string)
    requires a != ""
    ensures Lead(a + b) == Lead(a) + b
  {
  }

  lemma TrailLeadCommute(b: string)
    requires b != "" && Lead(b) != ""
    ensures Lead(Trail(b)) == Trail(Lead(b))
  {
  }

  lemma JoinAroundSlash(a: string, c: string)
    requires a != "" && c != ""
    ensures JoinPath(JoinPath(a, [SLASH]), c) == Trail(a) + Lead(c) == JoinPath(a, JoinPath([SLASH], c))
  {
    JoinPathNormalForm(a, [SLASH]);
    assert JoinPath(a, [SLASH]) == Trail(a);
    JoinPathNormalForm(Trail(a), c);
    JoinPathNormalForm([SLASH], c);
    assert ([SLASH] + Lead(c))[1..] == Lead(c);
    JoinPathNormalForm(a, [SLASH] + Lead(c));
  }

  lemma JoinAroundName(a: string, b: string, c: string)
    requires a != "" && b != "" && c != "" && Lead(b) != ""
    ensures JoinPath(JoinPath(a, b), c) == Trail(a) + Trail(Lead(b)) + Lead(c) == JoinPath(a, JoinPath(b, c))
  {
    JoinPathNormalForm(a, b);
    JoinPathNormalForm(Trail(a) + Lead(b), c);
    TrailOfConcat(Trail(a), Lead(b));
    JoinPathNormalForm(b, c);
    JoinPathNormalForm(a, Trail(b) + Lead(c));
    LeadOfConcat(Trail(b), Lead(c));
    TrailLeadCommute(b);
    assert Trail(a) + (Trail(Lead(b)) + Lead(c)) == Trail(a) + Trail(Lead(b)) + Lead(c);
  }

  /** JoinPath is associative, with the empty path as its unit. */
  lemma JoinPathIsMonoid(a: string, b: string, c: string)
    ensures JoinPath(JoinPath(a, b), c) == JoinPath(a, JoinPath(b, c))
    ensures JoinPath("", a) == a == JoinPath(a, "")
  {
    if a != "" && b != "" && c != "" {
      if Lead(b) == "" {
        assert b == [SLASH];
        JoinAroundSlash(a, c);
      } else {
        JoinAroundName(a, b, c);
      }
    }
  }

  // ----- Joining many paths -----

  /** The left fold of the two-argument JoinPath. */
  function JoinAll(paths: seq<string>): string {
    if paths == [] then "" else JoinPath(JoinAll(paths[..|paths| - 1]), paths[|paths| - 1])
  }

  /** The index of the last absolute path, or 0 if there is none. */
  function LastAbsolute(paths: seq<string>): (i: nat)
    ensures i <= |paths|
    ensures i < |paths| ==> IsAbsolute(paths[i]) || (i == 0 && forall p <- paths :: !IsAbsolute(p))
    ensures forall j | i < j < |paths| :: !IsAbsolute(paths[j])
  {
    if paths == [] then 0
    else if IsAbsolute(paths[|paths| - 1]) then |paths| - 1
    else LastAbsolute(paths[..|paths| - 1])
  }

  /** JoinPathRespectAbsolute: the segments before the last absolute path are ignored. */
  function JoinFromLastAbsolute(paths: seq<string>): string {
    JoinAll(paths[LastAbsolute(paths)..])
  }

  lemma JoinAllAppend(paths: seq<string>, p: string)
    ensures JoinAll(paths + [p]) == JoinPath(JoinAll(paths), p)
  {
  }

  lemma JoinFromLastAbsoluteAppend(paths: seq<string>, p: string)
    ensures JoinFromLastAbsolute(paths + [p]) ==
            if IsAbsolute(p) then p else JoinPath(JoinFromLastAbsolute(paths), p)
  {
    var all := paths + [p];
    if IsAbsolute(p) {
      assert all[|paths|..] == [] + [p];
      JoinAllAppend([], p);
    } else {
      assert all[..|paths|] == paths;
      var i := LastAbsolute(paths);
      assert all[i..] == paths[i..] + [p];
      JoinAllAppend(paths[i..], p);
    }
  }

  function TotalSize(paths: seq<string>): nat {
    if paths == [] then 0 else TotalSize(paths[..|paths| - 1]) + |paths[|paths| - 1]|
  }

  lemma {:induction false} TotalSizeGrows(paths: seq<string>, i: nat)
    requires i <= |paths|
    ensures TotalSize(paths[..i]) <= TotalSize(paths)
    decreases |paths| - i
  {
    if i < |paths| {
      TotalSizeGrows(paths, i + 1);
      assert paths[..i + 1][..i] == paths[..i];
    } else {
      assert paths[..i] == paths;
    }
  }

  method CopyInto(buffer: array<char>, out: nat, path: string) returns (end: nat)
    requires out + |path| <= buffer.Length
    modifies buffer
    ensures end == out + |path|
    ensures buffer[..end] == old(buffer[..out]) + path
  {
    forall k | 0 <= k < |path| {
      buffer[out + k] := path[k];
    }
    end := out + |path|;
  }

  /** The body of the join loop: one more path goes behind the first `out` characters, which it
      overwrites if it is absolute and absolute paths are to be honoured. */
  method AppendPath(honorAbs: bool, buffer: array<char>, out: nat, trailingSlash: bool, path: string)
    returns (out': nat, trailingSlash': bool)
    requires out + |path| + (if out == 0 then 0 else 1) <= buffer.Length
    requires trailingSlash == EndsInSlash(buffer[..out])
    modifies buffer
    ensures out' <= out + |path| + (if out == 0 || path == "" then 0 else 1) <= buffer.Length
    ensures buffer[..out'] == if honorAbs && IsAbsolute(path) then path else JoinPath(old(buffer[..out]), path)
    ensures trailingSlash' == EndsInSlash(buffer[..out'])
  {
    out', trailingSlash' := out, trailingSlash;
    if path == "" {
      return;
    }
    var rest := path;
    ghost var front := buffer[..out];  // what goes before `rest`
    if path[0] == SLASH {
      if honorAbs {
        out', front := 0, "";
      } else if trailingSlash {
        rest := path[1..];
      }
    } else if !trailingSlash && out != 0 {
      buffer[out] := SLASH;
      out' := out + 1;
      front := front + [SLASH];
    }
    assert buffer[..out'] == front;
    out' := CopyInto(buffer, out', rest);
    trailingSlash' := buffer[out' - 1] == SLASH;
  }

  /** What the buffer must hold after some paths. */
  function Joined(honorAbs: bool, paths: seq<string>): string {
    if honorAbs then JoinFromLastAbsolute(paths) else JoinAll(paths)
  }

  lemma JoinedStep(honorAbs: bool, paths: seq<string>, i: nat)
    requires i < |paths|
    ensures Joined(honorAbs, paths[..i + 1]) ==
            if honorAbs && IsAbsolute(paths[i]) then paths[i] else JoinPath(Joined(honorAbs, paths[..i]), paths[i])
    ensures TotalSize(paths[..i + 1]) == TotalSize(paths[..i]) + |paths[i]| <= TotalSize(paths)
  {
    assert paths[..i + 1] == paths[..i] + [paths[i]] && paths[..i + 1][..i] == paths[..i];
    TotalSizeGrows(paths, i + 1);
    JoinFromLastAbsoluteAppend(paths[..i], paths[i]);
  }

  /** Room for all the paths, and for a separator before each but the first. */
  method WorstCaseSize(paths: seq<string>) returns (totalSize: nat)
    requires paths != []
    ensures totalSize == |paths| - 1 + TotalSize(paths)
  {
    totalSize := |paths| - 1;
    for i := 0 to |paths|
      invariant totalSize == |paths| - 1 + TotalSize(paths[..i])
    {
      assert paths[..i + 1][..i] == paths[..i];
      totalSize := totalSize + |paths[i]|;
    }
    assert paths[..|paths|] == paths;
  }

  /** The buffer builder. It computes the fold of JoinPath over all paths or, if absolute paths are
      to be honoured, over those from the last absolute one on; no write passes the worst-case size
      computed up front. */
  method JoinPathImpl(honorAbs: bool, paths: seq<string>) returns (result: string)
    ensures result == if honorAbs then JoinFromLastAbsolute(paths) else JoinAll(paths)
  {
    result := "";
    if |paths| != 0 {
      var totalSize := WorstCaseSize(paths);
      var buffer := new char[totalSize];
      var out: nat, trailingSlash := 0, false;
      assert paths[..0] == [];
      for i := 0 to |paths|
        invariant out <= TotalSize(paths[..i]) + (if i == 0 then 0 else i - 1)
        invariant out <= buffer.Length
        invariant buffer[..out] == Joined(honorAbs, paths[..i])
        invariant trailingSlash == EndsInSlash(buffer[..out])
      {
        JoinedStep(honorAbs, paths, i);
        out, trailingSlash := AppendPath(honorAbs, buffer, out, trailingSlash, paths[i]);
      }
      assert paths[..|paths|] == paths;
      result := buffer[..out];
    }
  }

  // ----- Splitting -----

  /** find_last_of('/'); None is npos. */
  datatype Position = None | At(pos: nat)

  function FindLastSlash(path: string): (p: Position)
    ensures p.At? ==> p.pos < |path| && path[p.pos] == SLASH && SLASH !in path[p.pos + 1..]
    ensures p == None <==> SLASH !in path
  {
    if path == "" then None
    else if path[|path| - 1] == SLASH then At(|path| - 1)
    else
      var p := FindLastSlash(path[..|path| - 1]);
      assert path == path[..|path| - 1] + [path[|path| - 1]];
      assert p.At? ==> path[p.pos + 1..] == path[..|path| - 1][p.pos + 1..] + [path[|path| - 1]];
      p
  }

  function SplitPath(path: string): (string, string) {
    match FindLastSlash(path)
    case None => ("", path)
    case At(pos) => if pos == 0 then (path[..1], path[1..]) else (path[..pos], path[pos + 1..])
  }

  function Dirname(path: string): string {
    SplitPath(path).0
  }

  function Basename(path: string): string {
    SplitPath(path).1
  }

  lemma LastSlashIsUnique(path: string, pos: nat)
    requires pos < |path| && path[pos] == SLASH && SLASH !in path[pos + 1..]
    ensures FindLastSlash(path) == At(pos)
  {
  }

  /** The base name of a joined path is the slash-free name that was joined last. */
  lemma BasenameOfJoin(dir: string, base: string)
    requires base != "" && SLASH !in base
    ensures Basename(JoinPath(dir, base)) == base
  {
    if dir != "" {
      JoinPathNormalForm(dir, base);
      var path := JoinPath(dir, base);
      var n := |Trail(dir)|;
      assert path[n..] == base;
      LastSlashIsUnique(path, n - 1);
    }
  }

  /** The directory of a joined path is the one that was joined, up to a trailing slash that is not all
      of it. */
  lemma DirnameOfJoin(dir: string, base: string)
    requires base != "" && SLASH !in base
    ensures Dirname(JoinPath(dir, base)) == if EndsInSlash(dir) && dir != [SLASH] then dir[..|dir| - 1] else dir
  {
    if dir != "" {
      JoinPathNormalForm(dir, base);
      DirnameOfTrail(Trail(dir), base);
      assert !EndsInSlash(dir) ==> Trail(dir)[..|dir|] == dir;
    }
  }

  lemma DirnameOfTrail(trail: string, base: string)
    requires EndsInSlash(trail) && SLASH !in base
    ensures Dirname(trail + base) == if trail == [SLASH] then trail else trail[..|trail| - 1]
  {
    var path, pos := trail + base, |trail| - 1;
    assert path[pos] == SLASH && path[pos + 1..] == base;
    LastSlashIsUnique(path, pos);
    assert path[..pos] == trail[..pos] && path[..1] == trail[..1];
  }

  /** The last slash of a path parts it: the base name is what comes after it, the directory what comes
      before it, or the slash itself if nothing does. */
  lemma SplitAtLastSlash(path: string)
    ensures SLASH !in Basename(path)
    ensures if SLASH !in path then Dirname(path) == "" && Basename(path) == path
            else || (Dirname(path) == [SLASH] && path == [SLASH] + Basename(path))
                 || (Dirname(path) != "" && path == Dirname(path) + [SLASH] + Basename(path))
  {
  }

  /** The last slash of the path, if there is one before it, is not doubled. */
  predicate LastSlashIsSingle(path: string) {
    var p := FindLastSlash(path);
    p.At? && p.pos > 0 ==> path[p.pos - 1] != SLASH
  }

  /** Joining the two halves of a path gives it back if and only if the path is empty, is "/", or has
      a non-empty base name that follows no doubled slash. */
  lemma SplitThenJoinIff(path: string)
    ensures JoinPath(Dirname(path), Basename(path)) == path <==>
            path == "" || path == [SLASH] || (Basename(path) != "" && LastSlashIsSingle(path))
  {
  }
}
