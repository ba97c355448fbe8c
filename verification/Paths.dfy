/** Finding the migrations directory: path components, the longest overlap, and its removal in place. */
module Paths {

  // ---------- paths and components ----------

  /** strings.Split on the separator. */
  function Split(s: string): (parts: seq<string>)
    ensures |parts| > 0 && NoSlashes(parts)
  {
    if s == "" then [""]
    else if s[0] == '/' then [""] + Split(s[1..])
    else
      var rest := Split(s[1..]);
      [[s[0]] + rest[0]] + rest[1..]
  }

  /** strings.Join with the separator. */
  function Join(parts: seq<string>): string {
    if parts == [] then ""
    else if |parts| == 1 then parts[0]
    else parts[0] + "/" + Join(parts[1..])
  }

  predicate Rooted(p: string) {
    p != "" && p[0] == '/'
  }

  /** One component met by filepath.Clean after those on the stack. */
  function Push(stack: seq<string>, c: string, rooted: bool): seq<string> {
    if c == "" || c == "." then stack
    else if c != ".." then stack + [c]
    else if stack != [] && stack[|stack| - 1] != ".." then stack[..|stack| - 1]
    else if rooted then stack
    else stack + [c]
  }

  function Resolve(parts: seq<string>, rooted: bool): seq<string> {
    if parts == [] then [] else Push(Resolve(parts[..|parts| - 1], rooted), parts[|parts| - 1], rooted)
  }

  /** filepath.Clean */
  function Clean(p: string): string {
    var parts := Resolve(Split(p), Rooted(p));
    if Rooted(p) then "/" + Join(parts) else if parts == [] then "." else Join(parts)
  }

  /** filepath.Join */
  function JoinClean(parts: seq<string>): string {
    if parts == [] then ""
    else if parts[0] == "" then JoinClean(parts[1..])
    else Clean(Join(parts))
  }

  function SplitPath(p: string): seq<string> {
    if Rooted(p) then [""] + Split(Clean(p[1..])) else Split(Clean(p))
  }

  function JoinPath(parts: seq<string>): string {
    if parts != [] && parts[0] == "" then "/" + JoinClean(parts[1..]) else JoinClean(parts)
  }

  predicate NoSlashes(parts: seq<string>) {
    forall i :: 0 <= i < |parts| ==> '/' !in parts[i]
  }

  /** A component that names a directory. */
  predicate Ordinary(c: string) {
    c != "" && c != "." && c != ".." && '/' !in c
  }

  predicate AllOrdinary(parts: seq<string>) {
    forall i :: 0 <= i < |parts| ==> Ordinary(parts[i])
  }

  /** What is left after cleaning: ordinary components, in a relative path after a run of "..". */
  predicate Settled(parts: seq<string>, rooted: bool) {
    forall i :: 0 <= i < |parts| ==>
      Ordinary(parts[i]) || (parts[i] == ".." && !rooted && forall k :: 0 <= k < i ==> parts[k] == "..")
  }

  // ---------- splitting and joining ----------

  lemma SplitName(c: string)
    requires '/' !in c
    ensures Split(c) == [c]
  {
    if c != "" {
      SplitName(c[1..]);
      assert c == [c[0]] + c[1..];
    }
  }

  lemma {:induction false} SplitAtSlash(c: string, rest: string)
    requires '/' !in c
    ensures Split(c + "/" + rest) == [c] + Split(rest)
  {
    var s := c + "/" + rest;
    if c == "" {
      assert s[1..] == rest;
    } else {
      SplitAtSlash(c[1..], rest);
      assert s[1..] == c[1..] + "/" + rest;
      assert c == [c[0]] + c[1..];
    }
  }

  lemma {:induction false} SplitUndoesJoin(parts: seq<string>)
    requires parts != [] && NoSlashes(parts)
    ensures Split(Join(parts)) == parts
  {
    if |parts| == 1 {
      SplitName(parts[0]);
    } else {
      SplitUndoesJoin(parts[1..]);
      SplitAtSlash(parts[0], Join(parts[1..]));
    }
  }

  lemma {:induction false} JoinNested(base: seq<string>, rel: seq<string>)
    requires rel != []
    ensures Join(base + [Join(rel)]) == Join(base + rel)
  {
    if base == [] {
      assert base + rel == rel && base + [Join(rel)] == [Join(rel)];
    } else {
      JoinNested(base[1..], rel);
      assert (base + rel)[1..] == base[1..] + rel && (base + [Join(rel)])[1..] == base[1..] + [Join(rel)];
    }
  }

  // ---------- cleaning ----------

  lemma PushSettles(stack: seq<string>, c: string, rooted: bool)
    requires Settled(stack, rooted) && '/' !in c
    ensures Settled(Push(stack, c, rooted), rooted)
  {
    if c == ".." && !rooted && (stack == [] || stack[|stack| - 1] == "..") {
      forall k | 0 <= k < |stack| ensures stack[k] == ".." {
      }
    }
  }

  lemma {:induction false} ResolveSettles(parts: seq<string>, rooted: bool)
    requires NoSlashes(parts)
    ensures Settled(Resolve(parts, rooted), rooted)
  {
    if parts != [] {
      ResolveSettles(parts[..|parts| - 1], rooted);
      PushSettles(Resolve(parts[..|parts| - 1], rooted), parts[|parts| - 1], rooted);
    }
  }

  lemma SettledPush(stack: seq<string>, c: string, rooted: bool)
    requires Settled(stack + [c], rooted)
    ensures Settled(stack, rooted) && Push(stack, c, rooted) == stack + [c]
  {
    var all := stack + [c];
    assert all[|stack|] == c && forall k :: 0 <= k < |stack| ==> all[k] == stack[k];
  }

  lemma {:induction false} SettledStays(parts: seq<string>, rooted: bool)
    requires Settled(parts, rooted)
    ensures Resolve(parts, rooted) == parts
  {
    if parts != [] {
      var n := |parts| - 1;
      assert parts == parts[..n] + [parts[n]];
      SettledPush(parts[..n], parts[n], rooted);
      SettledStays(parts[..n], rooted);
    }
  }

  /** The directory, as its components below the root, that one gets to from dir through parts. */
  function Walk(dir: seq<string>, parts: seq<string>): seq<string> {
    if parts == [] then dir
    else
      var at := Walk(dir, parts[..|parts| - 1]);
      match parts[|parts| - 1]
      case "" => at
      case "." => at
      case ".." => if at == [] then [] else at[..|at| - 1]
      case c => at + [c]
  }

  lemma WalkOn(dir: seq<string>, parts: seq<string>, c: string)
    ensures Walk(dir, parts + [c]) == Walk(Walk(dir, parts), [c])
  {
    assert (parts + [c])[..|parts|] == parts && [c][..0] == [];
  }

  /** Cleaning keeps the meaning of a path: from the root, or for a relative path from any directory, the
      cleaned components lead to the same place. */
  lemma {:induction false} CleanKeepsMeaning(dir: seq<string>, parts: seq<string>, rooted: bool)
    requires NoSlashes(parts) && (rooted ==> dir == [])
    ensures Walk(dir, Resolve(parts, rooted)) == Walk(dir, parts)
  {
    if parts != [] {
      var front, c := parts[..|parts| - 1], parts[|parts| - 1];
      CleanKeepsMeaning(dir, front, rooted);
      ResolveSettles(front, rooted);
      PushKeepsMeaning(dir, Resolve(front, rooted), c, rooted);
      assert parts == front + [c];
      WalkOn(dir, front, c);
    }
  }

  lemma PushKeepsMeaning(dir: seq<string>, stack: seq<string>, c: string, rooted: bool)
    requires Settled(stack, rooted) && (rooted ==> dir == [])
    ensures Walk(dir, Push(stack, c, rooted)) == Walk(Walk(dir, stack), [c])
  {
    assert [c][..0] == [];
    WalkOn(dir, stack, c);
    if c == ".." && stack != [] && stack[|stack| - 1] != ".." {
      var last := stack[|stack| - 1];
      assert Ordinary(last) && stack == stack[..|stack| - 1] + [last];
      assert Walk(dir, stack) == Walk(dir, stack[..|stack| - 1]) + [last];
    }
  }

  /** An empty component, as a doubled separator leaves, changes nothing. */
  lemma {:induction false} ResolveSkips(front: seq<string>, back: seq<string>, rooted: bool)
    ensures Resolve(front + [""] + back, rooted) == Resolve(front + back, rooted)
  {
    var s, t := front + [""] + back, front + back;
    if back == [] {
      assert s[..|s| - 1] == front && t == front;
    } else {
      ResolveSkips(front, back[..|back| - 1], rooted);
      assert s[..|s| - 1] == front + [""] + back[..|back| - 1];
      assert t[..|t| - 1] == front + back[..|back| - 1];
    }
  }

  lemma NotRooted(parts: seq<string>)
    requires parts != [] && parts[0] != "" && '/' !in parts[0]
    ensures Join(parts) != "" && !Rooted(Join(parts))
  {
    assert Join(parts)[0] == parts[0][0];
  }

  /** A joined list of settled components is clean. */
  lemma CleanStays(parts: seq<string>)
    requires parts != [] && Settled(parts, false)
    ensures Clean(Join(parts)) == Join(parts) && JoinClean(parts) == Join(parts)
  {
    NotRooted(parts);
    SplitUndoesJoin(parts);
    SettledStays(parts, false);
  }

  /** The same below the root; the components may be none. */
  lemma CleanRooted(parts: seq<string>)
    requires AllOrdinary(parts)
    ensures Clean("/" + Join(parts)) == "/" + Join(parts)
    ensures parts != [] ==> SplitPath("/" + Join(parts)) == [""] + parts
  {
    var p := "/" + Join(parts);
    assert p[1..] == Join(parts);
    SettledStays(parts, true);
    if parts == [] {
      assert Split("") == [""] && Split(p) == ["", ""];
      assert [""][..0] == [] && ["", ""][..1] == [""] && Resolve([""], true) == [];
    } else {
      SplitUndoesJoin(parts);
      assert Split(p) == [""] + parts;
      SkipFirst(parts);
      CleanStays(parts);
    }
  }

  /** Every path that filepath.Clean leaves alone is the root, "." or a list of settled components. */
  lemma CleanForms(p: string) returns (parts: seq<string>)
    requires Clean(p) == p
    ensures Settled(parts, Rooted(p))
    ensures p == if Rooted(p) then "/" + Join(parts) else if parts == [] then "." else Join(parts)
  {
    ResolveSettles(Split(p), Rooted(p));
    parts := Resolve(Split(p), Rooted(p));
  }

  /** joinPath undoes splitPath on every clean path except the root, which comes back as "/.". */
  lemma JoinUndoesSplit(p: string)
    requires Clean(p) == p
    ensures JoinPath(SplitPath(p)) == p <==> p != "/"
  {
    var parts := CleanForms(p);
    if Rooted(p) {
      CleanRooted(parts);
      if parts == [] {
        RootComesBackDotted();
      } else {
        CleanStays(parts);
        assert ([""] + parts)[1..] == parts;
      }
    } else if parts == [] {
      DotStays();
    } else {
      CleanStays(parts);
      NotRooted(parts);
      SplitUndoesJoin(parts);
    }
  }

  lemma DotStays()
    ensures Clean("") == "." && Clean(".") == "." && Split(".") == ["."] && JoinClean(["."]) == "."
  {
    SplitName(".");
    SplitName("");
    assert ["."][..0] == [] && [""][..0] == [];
    assert Resolve(["."], false) == [] && Resolve([""], false) == [];
  }

  lemma RootComesBackDotted()
    ensures JoinPath(SplitPath("/")) == "/."
  {
    DotStays();
    assert "/"[1..] == "" && SplitPath("/") == ["", "."];
    assert ["", "."][1..] == ["."];
  }

  // ---------- the longest overlap ----------

  /** cur[s..e] is a run of at least one component that also occurs in rel, at j. */
  ghost predicate RunAt(cur: seq<string>, rel: seq<string>, s: int, e: int, j: int) {
    0 <= s < e <= |cur| && 0 <= j && j + e - s <= |rel| && cur[s..e] == rel[j..j + e - s]
  }

  ghost predicate Run(cur: seq<string>, rel: seq<string>, s: int, e: int) {
    exists j :: RunAt(cur, rel, s, e, j)
  }

  /** The leftmost of the longest runs. */
  ghost predicate LongestRun(cur: seq<string>, rel: seq<string>, s: int, e: int) {
    && Run(cur, rel, s, e)
    && forall s', e' :: Run(cur, rel, s', e') ==> e' - s' < e - s || (e' - s' == e - s && s <= s')
  }

  predicate ShareNothing(a: seq<string>, b: seq<string>) {
    forall c :: c in a ==> c !in b
  }

  lemma LongestRunUnique(cur: seq<string>, rel: seq<string>, s: int, e: int, s': int, e': int)
    requires LongestRun(cur, rel, s, e) && LongestRun(cur, rel, s', e')
    ensures s == s' && e == e'
  {
  }

  lemma RunHead(cur: seq<string>, rel: seq<string>, s: int, e: int, j: int, d: nat)
    requires RunAt(cur, rel, s, e, j) && d < e - s
    ensures cur[s + d] == rel[j + d]
  {
    assert cur[s..e][d] == rel[j..j + e - s][d];
  }

  lemma SharedIsRun(cur: seq<string>, rel: seq<string>) returns (i: int)
    requires !ShareNothing(cur, rel)
    ensures Run(cur, rel, i, i + 1)
  {
    var c :| c in cur && c in rel;
    i :| 0 <= i < |cur| && cur[i] == c;
    var j :| 0 <= j < |rel| && rel[j] == c;
    assert cur[i..i + 1] == [c] == rel[j..j + 1];
    assert RunAt(cur, rel, i, i + 1, j);
  }

  lemma RunIsShared(cur: seq<string>, rel: seq<string>, s: int, e: int)
    requires Run(cur, rel, s, e)
    ensures !ShareNothing(cur, rel)
  {
    var j :| RunAt(cur, rel, s, e, j);
    RunHead(cur, rel, s, e, j, 0);
    assert cur[s] in cur && cur[s] in rel;
  }

  /** The runs that start at a pair of positions seen so far, row by row, are at most best long. */
  ghost predicate Seen(cur: seq<string>, rel: seq<string>, i: int, j: int, best: int) {
    forall s, e, t :: RunAt(cur, rel, s, e, t) && (s < i || (s == i && t < j)) ==> e - s <= best
  }

  /** The start of the best run: before it every run is shorter. */
  ghost predicate Best(cur: seq<string>, rel: seq<string>, s: int, e: int, best: int) {
    if best == 0 then s == e == -1
    else e - s == best && Run(cur, rel, s, e) && forall s', e' :: Run(cur, rel, s', e') && s' < s ==> e' - s' < best
  }

  /** A run starting at (i, j) is no longer than the k components compared equal before a difference. */
  lemma Maximal(cur: seq<string>, rel: seq<string>, i: int, j: int, k: int, e: int)
    requires 0 <= i && 0 <= j && 0 <= k && i + k <= |cur| && j + k <= |rel|
    requires i + k == |cur| || j + k == |rel| || cur[i + k] != rel[j + k]
    requires RunAt(cur, rel, i, e, j)
    ensures e - i <= k
  {
    if k < e - i {
      RunHead(cur, rel, i, e, j, k);
    }
  }

  /** findLongestOverlap: the leftmost start of a longest common run, or (-1, -1) iff nothing is shared. */
  method FindLongestOverlap(cur: seq<string>, rel: seq<string>) returns (longestStart: int, longestEnd: int)
    ensures (longestStart == -1 && longestEnd == -1) <==> ShareNothing(cur, rel)
    ensures !ShareNothing(cur, rel) ==> LongestRun(cur, rel, longestStart, longestEnd)
  {
    longestStart, longestEnd := -1, -1;
    var maxLen := 0;
    for i := 0 to |cur|
      invariant maxLen >= 0 && Seen(cur, rel, i, 0, maxLen) && Best(cur, rel, longestStart, longestEnd, maxLen)
    {
      for j := 0 to |rel|
        invariant maxLen >= 0 && Seen(cur, rel, i, j, maxLen) && Best(cur, rel, longestStart, longestEnd, maxLen)
      {
        var k := 0;
        while i + k < |cur| && j + k < |rel| && cur[i + k] == rel[j + k]
          invariant 0 <= k && i + k <= |cur| && j + k <= |rel| && cur[i..i + k] == rel[j..j + k]
        {
          assert cur[i..i + k + 1] == cur[i..i + k] + [cur[i + k]] == rel[j..j + k] + [rel[j + k]];
          k := k + 1;
        }
        forall e | RunAt(cur, rel, i, e, j) ensures e - i <= k {
          Maximal(cur, rel, i, j, k, e);
        }
        if k > maxLen {
          assert RunAt(cur, rel, i, i + k, j);
          assert forall s, e :: Run(cur, rel, s, e) && s < i ==> e - s <= maxLen;
          maxLen, longestStart, longestEnd := k, i, i + k;
        }
      }
      assert forall s, e, t :: RunAt(cur, rel, s, e, t) ==> t < |rel|;
    }
    assert forall s, e, t :: RunAt(cur, rel, s, e, t) ==> s < |cur|;
    if ShareNothing(cur, rel) {
      if maxLen != 0 {
        RunIsShared(cur, rel, longestStart, longestEnd);
      }
    } else {
      var _ := SharedIsRun(cur, rel);
    }
  }

  // ---------- removing it ----------

  /** The two appends of removeOverlap, in the array that holds the components. */
  method CutInPlace(parts: array<string>, start: nat, end: nat, last: string) returns (n: nat)
    requires start < end <= parts.Length
    modifies parts
    ensures n <= parts.Length && parts[..n] == old(parts[..start] + parts[end..]) + [last]
  {
    n := start;
    for k := end to parts.Length
      invariant n == start + k - end
      invariant parts[..n] == old(parts[..start] + parts[end..k])
      invariant parts[k..] == old(parts[k..])
    {
      assert parts[k] == parts[k..][0] == old(parts[k]);
      parts[n] := parts[k];
      n := n + 1;
    }
    parts[n] := last;
    n := n + 1;
  }

  /** What removeOverlap makes of two directories. */
  ghost predicate Merges(curDir: string, relDir: string, path: string) {
    MergesParts(SplitPath(curDir), SplitPath(relDir), curDir, relDir, path)
  }

  ghost predicate MergesParts(cur: seq<string>, rel: seq<string>, curDir: string, relDir: string, path: string) {
    if ShareNothing(cur, rel) then path == JoinClean([curDir, relDir])
    else exists s, e :: LongestRun(cur, rel, s, e) && path == JoinPath(cur[..s] + cur[e..] + [relDir])
  }

  method RemoveOverlap(curDir: string, relDir: string) returns (path: string)
    ensures Merges(curDir, relDir, path)
  {
    var cur := SplitPath(curDir);
    var start, end := FindLongestOverlap(cur, SplitPath(relDir));
    if start != -1 && end != -1 {
      var parts := new string[|cur|](k requires 0 <= k < |cur| => cur[k]);
      assert parts[..] == cur;
      var n := CutInPlace(parts, start, end, relDir);
      return JoinPath(parts[..n]);
    }
    return JoinClean([curDir, relDir]);
  }

  // ---------- the migrations directory ----------

  lemma MergedBelow(base: seq<string>, rel: seq<string>)
    requires AllOrdinary(base) && AllOrdinary(rel) && rel != []
    ensures JoinPath([""] + base + [Join(rel)]) == "/" + Join(base + rel)
  {
    var parts := base + [Join(rel)];
    NotRooted(rel);
    JoinNested(base, rel);
    CleanStays(base + rel);
    assert ([""] + base + [Join(rel)])[1..] == parts;
    assert parts[0] != "";
  }

  lemma JoinCleanTwo(a: string, b: string)
    requires a != ""
    ensures JoinClean([a, b]) == Clean(a + "/" + b)
  {
    assert [a, b][1..] == [b];
    assert Join([a, b]) == a + "/" + b;
  }

  /** Appending rel to the root directory itself or to any other. */
  lemma AppendedBelow(base: seq<string>, rel: seq<string>)
    requires AllOrdinary(base) && AllOrdinary(rel) && rel != []
    ensures JoinClean(["/" + Join(base), Join(rel)]) == "/" + Join(base + rel)
  {
    var rest := Join(base) + "/" + Join(rel);
    JoinCleanTwo("/" + Join(base), Join(rel));
    assert "/" + Join(base) + "/" + Join(rel) == "/" + rest;
    CleanBelowRoot(rest);
    SplitAppended(base, rel);
    SettledStays(base + rel, true);
  }

  lemma CleanBelowRoot(rest: string)
    ensures Clean("/" + rest) == "/" + Join(Resolve(Split(rest), true))
  {
    assert "/" + rest == "" + "/" + rest;
    SplitAtSlash("", rest);
    SkipFirst(Split(rest));
  }

  lemma SplitAppended(base: seq<string>, rel: seq<string>)
    requires AllOrdinary(base) && AllOrdinary(rel) && rel != []
    ensures Resolve(Split(Join(base) + "/" + Join(rel)), true) == Resolve(base + rel, true)
  {
    if base == [] {
      SplitAtSlash("", Join(rel));
      SplitUndoesJoin(rel);
      SkipFirst(rel);
      assert base + rel == rel;
    } else {
      SplitJoined(base, rel);
    }
  }

  lemma SkipFirst(parts: seq<string>)
    ensures Resolve([""] + parts, true) == Resolve(parts, true)
  {
    assert [] + [""] + parts == [""] + parts && [] + parts == parts;
    ResolveSkips([], parts, true);
  }

  lemma {:induction false} SplitJoined(base: seq<string>, rel: seq<string>)
    requires base != [] && rel != [] && NoSlashes(base) && NoSlashes(rel)
    ensures Split(Join(base) + "/" + Join(rel)) == base + rel
  {
    if |base| == 1 {
      SplitUndoesJoin(rel);
      SplitAtSlash(base[0], Join(rel));
    } else {
      var rest := Join(base[1..]) + "/" + Join(rel);
      SplitJoined(base[1..], rel);
      SplitAtSlash(base[0], rest);
      calc {
        Split(Join(base) + "/" + Join(rel));
        { assert Join(base) + "/" + Join(rel) == base[0] + "/" + rest; }
        Split(base[0] + "/" + rest);
        [base[0]] + (base[1..] + rel);
        { assert base == [base[0]] + base[1..]; }
        base + rel;
      }
    }
  }

  lemma RelParts(rel: seq<string>)
    requires AllOrdinary(rel) && rel != []
    ensures SplitPath(Join(rel)) == rel
  {
    CleanStays(rel);
    NotRooted(rel);
    SplitUndoesJoin(rel);
  }

  /** The components of a directory, the root included, share with rel what its names share. */
  lemma RootSharesNothing(base: seq<string>, rel: seq<string>)
    requires AllOrdinary(base) && AllOrdinary(rel)
    ensures ShareNothing(SplitPath("/" + Join(base)), rel) <==> ShareNothing(base, rel)
  {
    if base == [] {
      DotStays();
      assert "/" + Join(base) == "/" && "/"[1..] == "";
      assert SplitPath("/") == ["", "."];
    } else {
      CleanRooted(base);
      assert forall c :: c in base ==> c in [""] + base;
    }
  }

  /** A run never includes the empty component in front, so cutting it leaves that in front. */
  lemma CutBehindRoot(dirs: seq<string>, rel: seq<string>, s: int, e: int)
    requires AllOrdinary(rel) && Run([""] + dirs, rel, s, e)
    ensures 0 < s < e <= |dirs| + 1
    ensures ([""] + dirs)[..s] + ([""] + dirs)[e..] == [""] + (dirs[..s - 1] + dirs[e - 1..])
  {
    var cur := [""] + dirs;
    var j :| RunAt(cur, rel, s, e, j);
    RunHead(cur, rel, s, e, j, 0);
  }

  lemma PathAfterCut(dirs: seq<string>, rel: seq<string>, s: int, e: int)
    requires AllOrdinary(dirs) && AllOrdinary(rel) && rel != [] && Run([""] + dirs, rel, s, e)
    ensures 0 < s < e <= |dirs| + 1
    ensures JoinPath(([""] + dirs)[..s] + ([""] + dirs)[e..] + [Join(rel)])
            == "/" + Join(dirs[..s - 1] + dirs[e - 1..] + rel)
  {
    CutBehindRoot(dirs, rel, s, e);
    MergedBelow(dirs[..s - 1] + dirs[e - 1..], rel);
  }

  lemma ChosenRun(cur: seq<string>, rel: seq<string>, curDir: string, relDir: string, path: string)
    returns (s: int, e: int)
    requires MergesParts(cur, rel, curDir, relDir, path) && !ShareNothing(cur, rel)
    ensures LongestRun(cur, rel, s, e) && path == JoinPath(cur[..s] + cur[e..] + [relDir])
  {
    s, e :| LongestRun(cur, rel, s, e) && path == JoinPath(cur[..s] + cur[e..] + [relDir]);
  }

  /** When something is shared, the run found is cut out of the components and rel goes behind the rest. */
  lemma MergedShared(dirs: seq<string>, rel: seq<string>, curDir: string, path: string) returns (s: int, e: int)
    requires AllOrdinary(dirs) && AllOrdinary(rel) && rel != [] && !ShareNothing(dirs, rel)
    requires MergesParts([""] + dirs, rel, curDir, Join(rel), path)
    ensures 0 < s < e <= |dirs| + 1 && LongestRun([""] + dirs, rel, s, e)
    ensures path == "/" + Join(dirs[..s - 1] + dirs[e - 1..] + rel)
  {
    RootKeepsShared(dirs, rel);
    s, e := ChosenRun([""] + dirs, rel, curDir, Join(rel), path);
    PathAfterCut(dirs, rel, s, e);
  }

  lemma RootKeepsShared(dirs: seq<string>, rel: seq<string>)
    requires !ShareNothing(dirs, rel)
    ensures !ShareNothing([""] + dirs, rel)
  {
    var c :| c in dirs && c in rel;
    assert c in [""] + dirs;
  }

  lemma MergesDirs(dirs: seq<string>, rel: seq<string>, path: string)
    requires AllOrdinary(dirs) && AllOrdinary(rel) && dirs != [] && rel != []
    requires Merges("/" + Join(dirs), Join(rel), path)
    ensures MergesParts([""] + dirs, rel, "/" + Join(dirs), Join(rel), path)
  {
    RelParts(rel);
    CleanRooted(dirs);
  }

  lemma ProjectRootWorks(base: seq<string>, rel: seq<string>, path: string)
    requires AllOrdinary(base) && AllOrdinary(rel) && rel != [] && ShareNothing(base, rel)
    requires Merges("/" + Join(base), Join(rel), path)
    ensures path == "/" + Join(base + rel)
  {
    RootSharesNothing(base, rel);
    RelParts(rel);
    AppendedBelow(base, rel);
  }

  lemma ProjectRootFails(base: seq<string>, rel: seq<string>, path: string)
    requires AllOrdinary(base) && AllOrdinary(rel) && rel != [] && !ShareNothing(base, rel)
    requires Merges("/" + Join(base), Join(rel), path)
    ensures path != "/" + Join(base + rel)
  {
    MergesDirs(base, rel, path);
    SharedMerge(base, rel, "/" + Join(base), path);
  }

  lemma SharedMerge(base: seq<string>, rel: seq<string>, curDir: string, path: string)
    requires AllOrdinary(base) && AllOrdinary(rel) && rel != [] && !ShareNothing(base, rel)
    requires MergesParts([""] + base, rel, curDir, Join(rel), path)
    ensures path != "/" + Join(base + rel)
  {
    var s, e := MergedShared(base, rel, curDir, path);
    ShorterDiffers(base[..s - 1] + base[e - 1..], base, rel);
  }

  lemma ShorterDiffers(rest: seq<string>, base: seq<string>, rel: seq<string>)
    requires AllOrdinary(rest) && AllOrdinary(base) && AllOrdinary(rel) && rel != [] && |rest| < |base|
    ensures "/" + Join(rest + rel) != "/" + Join(base + rel)
  {
    SplitUndoesJoin(rest + rel);
    SplitUndoesJoin(base + rel);
    assert ("/" + Join(rest + rel))[1..] == Join(rest + rel) && ("/" + Join(base + rel))[1..] == Join(base + rel);
  }

  /** Started in the project directory, removeOverlap leads to rel below it exactly when no component of
      the directory's own path is one of rel's. */
  lemma ProjectRootIff(base: seq<string>, rel: seq<string>, path: string)
    requires AllOrdinary(base) && AllOrdinary(rel) && rel != []
    requires Merges("/" + Join(base), Join(rel), path)
    ensures path == "/" + Join(base + rel) <==> ShareNothing(base, rel)
  {
    if ShareNothing(base, rel) {
      ProjectRootWorks(base, rel, path);
    } else {
      ProjectRootFails(base, rel, path);
    }
  }

  /** The root's empty component shifts runs and is part of none. */
  lemma ShiftUp(dirs: seq<string>, rel: seq<string>, s: int, e: int)
    requires Run(dirs, rel, s, e)
    ensures Run([""] + dirs, rel, s + 1, e + 1)
  {
    var j :| RunAt(dirs, rel, s, e, j);
    assert ([""] + dirs)[s + 1..e + 1] == dirs[s..e];
    assert RunAt([""] + dirs, rel, s + 1, e + 1, j);
  }

  lemma ShiftDown(dirs: seq<string>, rel: seq<string>, s: int, e: int)
    requires AllOrdinary(rel) && Run([""] + dirs, rel, s + 1, e + 1)
    ensures Run(dirs, rel, s, e)
  {
    CutBehindRoot(dirs, rel, s + 1, e + 1);
    var j :| RunAt([""] + dirs, rel, s + 1, e + 1, j);
    assert ([""] + dirs)[s + 1..e + 1] == dirs[s..e];
    assert RunAt(dirs, rel, s, e, j);
  }

  lemma ShiftLongest(dirs: seq<string>, rel: seq<string>, s: int, e: int)
    requires AllOrdinary(rel) && LongestRun([""] + dirs, rel, s + 1, e + 1)
    ensures LongestRun(dirs, rel, s, e)
  {
    ShiftDown(dirs, rel, s, e);
    forall s', e' | Run(dirs, rel, s', e') ensures e' - s' < e - s || (e' - s' == e - s && s <= s') {
      ShiftUp(dirs, rel, s', e');
    }
  }

  /** The first run of m components starts at s. */
  ghost predicate FirstRun(dirs: seq<string>, rel: seq<string>, s: int, m: nat) {
    Run(dirs, rel, s, s + m) && forall s', e' :: Run(dirs, rel, s', e') && e' - s' == m ==> s <= s'
  }

  /** The component of rel[..m] met k places before the end of its endless repetition. */
  function Echo(k: nat, m: nat): (i: nat)
    requires 0 < k && 0 < m
    ensures i < m
  {
    if k <= m then m - k else Echo(k - m, m)
  }

  /** From s to its end, base is rel[..m] over and over, cut off in front. */
  predicate Echoes(base: seq<string>, rel: seq<string>, m: nat, s: int)
    requires 0 < m <= |rel| && 0 <= s <= |base|
  {
    forall k: nat :: 0 < k <= |base| - s ==> base[|base| - k] == rel[Echo(k, m)]
  }

  /** No run that starts in base is longer than the m components of rel already entered; and where the
      first one as long starts, base goes on repeating these components to its end. */
  ghost predicate Harmless(base: seq<string>, rel: seq<string>, m: nat)
    requires m <= |rel|
  {
    var dirs := base + rel[..m];
    && (forall s, e :: 0 <= s < |base| && Run(dirs, rel, s, e) ==> e - s <= m)
    && (m > 0 ==> forall s :: 0 <= s < |base| && FirstRun(dirs, rel, s, m) ==> Echoes(base, rel, m, s))
  }

  /** Moving m components on inside base and rel[..m] meets the same ones exactly in an echo. */
  lemma EchoesIff(base: seq<string>, rel: seq<string>, m: nat, s: int)
    requires 0 < m <= |rel| && 0 <= s <= |base|
    ensures Echoes(base, rel, m, s) <==> (base + rel[..m])[s + m..] == base[s..]
  {
    var dirs := base + rel[..m];
    if Echoes(base, rel, m, s) {
      forall i | s <= i < |base| ensures dirs[i + m] == base[i] {
        assert base[|base| - (|base| - i)] == rel[Echo(|base| - i, m)];
        if i + m < |base| {
          assert base[|base| - (|base| - i - m)] == rel[Echo(|base| - i - m, m)];
        }
      }
      assert forall i :: 0 <= i < |base| - s ==> dirs[s + m..][i] == base[s..][i];
    }
    if dirs[s + m..] == base[s..] {
      forall i | s <= i < |base| ensures dirs[i + m] == base[i] {
        assert dirs[s + m..][i - s] == base[s..][i - s];
      }
      forall k: nat | 0 < k <= |base| - s ensures base[|base| - k] == rel[Echo(k, m)] {
        EchoAt(base, rel, m, s, k);
      }
    }
  }

  lemma {:induction false} EchoAt(base: seq<string>, rel: seq<string>, m: nat, s: int, k: nat)
    requires 0 < m <= |rel| && 0 <= s <= |base| && 0 < k <= |base| - s
    requires forall i :: s <= i < |base| ==> (base + rel[..m])[i + m] == base[i]
    ensures base[|base| - k] == rel[Echo(k, m)]
  {
    assert (base + rel[..m])[|base| - k + m] == base[|base| - k];
    if k > m {
      EchoAt(base, rel, m, s, k - m);
    }
  }

  /** The part of rel already entered is a run, and a longer one starts in base. */
  lemma EnteredRuns(base: seq<string>, rel: seq<string>, m: nat, s: int, e: int)
    requires 0 < m <= |rel| && LongestRun(base + rel[..m], rel, s, e)
    ensures e - s >= m && s <= |base| && (s == |base| ==> e - s == m)
  {
    var dirs := base + rel[..m];
    assert dirs[|base|..|base| + m] == rel[..m] == rel[0..0 + m];
    assert RunAt(dirs, rel, |base|, |base| + m, 0);
    assert Run(dirs, rel, |base|, |base| + m);
  }

  /** Cutting the longest run out leaves base exactly when the runs are harmless. */
  lemma CutIff(base: seq<string>, rel: seq<string>, m: nat, s: int, e: int)
    requires 0 < m <= |rel| && LongestRun(base + rel[..m], rel, s, e)
    ensures 0 <= s <= e <= |base| + m
    ensures var dirs := base + rel[..m]; dirs[..s] + dirs[e..] == base <==> Harmless(base, rel, m)
  {
    var dirs := base + rel[..m];
    EnteredRuns(base, rel, m, s, e);
    var rest := dirs[..s] + dirs[e..];
    if e - s > m {
      assert |rest| < |base| && Run(dirs, rel, s, e);
    } else if s == |base| {
      assert rest == base;
      forall s' | 0 <= s' < |base| ensures !FirstRun(dirs, rel, s', m) {
      }
    } else {
      CutAtFirst(base, rel, m, s);
    }
  }

  lemma CutAtFirst(base: seq<string>, rel: seq<string>, m: nat, s: int)
    requires 0 < m <= |rel| && 0 <= s < |base| && LongestRun(base + rel[..m], rel, s, s + m)
    ensures var dirs := base + rel[..m]; dirs[..s] + dirs[s + m..] == base <==> Harmless(base, rel, m)
  {
    var dirs := base + rel[..m];
    assert FirstRun(dirs, rel, s, m);
    EchoesIff(base, rel, m, s);
    assert dirs[..s] == base[..s] && base == base[..s] + base[s..];
    assert dirs[..s] + dirs[s + m..] == base ==> dirs[s + m..] == (dirs[..s] + dirs[s + m..])[s..];
    forall s' | 0 <= s' < |base| && FirstRun(dirs, rel, s', m) ensures s' == s {
    }
  }

  lemma JoinInjective(a: seq<string>, b: seq<string>, rel: seq<string>)
    requires AllOrdinary(a) && AllOrdinary(b) && AllOrdinary(rel) && rel != []
    ensures "/" + Join(a + rel) == "/" + Join(b + rel) <==> a == b
  {
    SplitUndoesJoin(a + rel);
    SplitUndoesJoin(b + rel);
    assert ("/" + Join(a + rel))[1..] == Join(a + rel) && ("/" + Join(b + rel))[1..] == Join(b + rel);
    assert a + rel == b + rel ==> a == (a + rel)[..|a + rel| - |rel|] == (b + rel)[..|b + rel| - |rel|] == b;
  }

  lemma EnteredMergeIff(base: seq<string>, rel: seq<string>, m: nat, curDir: string, path: string)
    requires AllOrdinary(base) && AllOrdinary(rel) && 0 < m <= |rel|
    requires MergesParts([""] + (base + rel[..m]), rel, curDir, Join(rel), path)
    ensures path == "/" + Join(base + rel) <==> Harmless(base, rel, m)
  {
    var dirs := base + rel[..m];
    assert dirs[|base|] in dirs && dirs[|base|] == rel[0] && rel[0] in rel;
    var s, e := MergedShared(dirs, rel, curDir, path);
    RestIff(base, rel, m, s, e);
    JoinInjective(dirs[..s - 1] + dirs[e - 1..], base, rel);
  }

  lemma RestIff(base: seq<string>, rel: seq<string>, m: nat, s: int, e: int)
    requires AllOrdinary(rel) && 0 < m <= |rel| && 0 < s < e <= |base| + m + 1
    requires LongestRun([""] + (base + rel[..m]), rel, s, e)
    ensures (base + rel[..m])[..s - 1] + (base + rel[..m])[e - 1..] == base <==> Harmless(base, rel, m)
  {
    ShiftLongest(base + rel[..m], rel, s - 1, e - 1);
    CutIff(base, rel, m, s - 1, e - 1);
  }

  lemma NothingSharedNoRun(cur: seq<string>, rel: seq<string>, s: int, e: int)
    requires ShareNothing(cur, rel)
    ensures !Run(cur, rel, s, e)
  {
    if Run(cur, rel, s, e) {
      RunIsShared(cur, rel, s, e);
    }
  }

  lemma HarmlessAtRoot(base: seq<string>, rel: seq<string>)
    ensures Harmless(base, rel, 0) <==> ShareNothing(base, rel)
  {
    assert base + rel[..0] == base;
    if ShareNothing(base, rel) {
      forall s, e ensures !Run(base, rel, s, e) {
        NothingSharedNoRun(base, rel, s, e);
      }
    } else {
      var i := SharedIsRun(base, rel);
      assert Run(base + rel[..0], rel, i, i + 1);
    }
  }

  /** Started in the project directory or anywhere on the way into rel, removeOverlap leads to rel below
      the project directory exactly when the runs that start in that directory's own path are harmless. */
  lemma LeadsToMigrationsIff(base: seq<string>, rel: seq<string>, m: nat, path: string)
    requires AllOrdinary(base) && AllOrdinary(rel) && rel != [] && m <= |rel|
    requires Merges("/" + Join(base + rel[..m]), Join(rel), path)
    ensures path == "/" + Join(base + rel) <==> Harmless(base, rel, m)
  {
    var dirs := base + rel[..m];
    if m == 0 {
      assert dirs == base;
      HarmlessAtRoot(base, rel);
      ProjectRootIff(base, rel, path);
    } else {
      MergesDirs(dirs, rel, path);
      EnteredMergeIff(base, rel, m, "/" + Join(dirs), path);
    }
  }

  /** In particular when no component of the project directory's path is one of rel's. */
  lemma LeadsToMigrations(base: seq<string>, rel: seq<string>, m: nat, path: string)
    requires AllOrdinary(base) && AllOrdinary(rel) && rel != [] && m <= |rel|
    requires ShareNothing(base, rel)
    requires Merges("/" + Join(base + rel[..m]), Join(rel), path)
    ensures path == "/" + Join(base + rel)
  {
    var dirs := base + rel[..m];
    forall s, e | 0 <= s < |base| ensures !Run(dirs, rel, s, e) {
      NoRunInside(base, rel, m, s, e);
    }
    LeadsToMigrationsIff(base, rel, m, path);
  }

  lemma RunStarts(cur: seq<string>, rel: seq<string>, s: int, e: int)
    requires Run(cur, rel, s, e)
    ensures 0 <= s < |cur| && cur[s] in rel
  {
    var j :| RunAt(cur, rel, s, e, j);
    RunHead(cur, rel, s, e, j, 0);
  }

  lemma NoRunInside(base: seq<string>, rel: seq<string>, m: nat, s: int, e: int)
    requires ShareNothing(base, rel) && m <= |rel| && 0 <= s < |base|
    ensures !Run(base + rel[..m], rel, s, e)
  {
    assert (base + rel[..m])[s] in base;
    if Run(base + rel[..m], rel, s, e) {
      RunStarts(base + rel[..m], rel, s, e);
    }
  }

  /** A checkout below a directory called store does not find its migrations. */
  lemma StoreDirectoryMisleads(base: seq<string>, rel: seq<string>, path: string)
    requires base == ["store", "app"] && rel == ["internal", "store", "pg", "migrations"]
    requires Merges("/" + Join(base), Join(rel), path)
    ensures path != "/" + Join(base + rel)
  {
    StoreIsShared(base, rel);
    ProjectRootFails(base, rel, path);
  }

  lemma StoreIsShared(base: seq<string>, rel: seq<string>)
    requires base == ["store", "app"] && rel == ["internal", "store", "pg", "migrations"]
    ensures AllOrdinary(base) && AllOrdinary(rel) && !ShareNothing(base, rel)
  {
    assert base[0] == rel[1] && base[0] in base && rel[1] in rel;
  }
}
