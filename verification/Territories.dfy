// Declared surfaces against observed files (pkg/joinlog/territory.go).
module Territories {
  import opened Text

  // filepath.Match within one segment (false on a malformed pattern) and path.Clean.
  datatype Matcher = Matcher(segment: (string, string) -> bool, clean: string -> string)

  const DOUBLE_STAR := "**"

  // The recursion over pattern and path segments.
  predicate Matches(m: Matcher, pattern: seq<string>, path: seq<string>)
    decreases |pattern|
  {
    if pattern == [] then path == []
    else if pattern[0] == DOUBLE_STAR then exists i :: 0 <= i <= |path| && Matches(m, pattern[1..], path[i..])
    else path != [] && m.segment(pattern[0], path[0]) && Matches(m, pattern[1..], path[1..])
  }

  method MatchSurfaceSegments(m: Matcher, pattern: seq<string>, path: seq<string>) returns (ok: bool)
    ensures ok <==> exists chunks :: Splits(m, pattern, path, chunks)
    decreases |pattern|
  {
    MatchesIsSplit(m, pattern, path);
    if |pattern| == 0 {
      return |path| == 0;
    }
    if pattern[0] == DOUBLE_STAR {
      for i := 0 to |path| + 1
        invariant forall k :: 0 <= k < i ==> !Matches(m, pattern[1..], path[k..])
      {
        var rest := MatchSurfaceSegments(m, pattern[1..], path[i..]);
        MatchesIsSplit(m, pattern[1..], path[i..]);
        if rest {
          return true;
        }
      }
      return false;
    }
    if |path| == 0 {
      return false;
    }
    if !m.segment(pattern[0], path[0]) {
      return false;
    }
    ok := MatchSurfaceSegments(m, pattern[1..], path[1..]);
    MatchesIsSplit(m, pattern[1..], path[1..]);
  }

  function Flatten(chunks: seq<seq<string>>): seq<string> {
    if chunks == [] then [] else chunks[0] + Flatten(chunks[1..])
  }

  // ** takes any chunk, every other segment pattern exactly one segment it accepts.
  predicate Fits(m: Matcher, pattern: string, chunk: seq<string>) {
    pattern == DOUBLE_STAR || (|chunk| == 1 && m.segment(pattern, chunk[0]))
  }

  // The path is the consecutive chunks, one per pattern segment.
  ghost predicate Splits(m: Matcher, pattern: seq<string>, path: seq<string>, chunks: seq<seq<string>>) {
    && |chunks| == |pattern| && Flatten(chunks) == path
    && forall k :: 0 <= k < |pattern| ==> Fits(m, pattern[k], chunks[k])
  }

  // Peeling one pattern segment: an i long first chunk that fits, and the rest.
  ghost predicate Peels(m: Matcher, pattern: seq<string>, path: seq<string>, i: int)
    requires pattern != []
  {
    0 <= i <= |path| && Fits(m, pattern[0], path[..i]) && Matches(m, pattern[1..], path[i..])
  }

  lemma MatchesByPeeling(m: Matcher, pattern: seq<string>, path: seq<string>)
    requires pattern != []
    ensures Matches(m, pattern, path) <==> exists i :: Peels(m, pattern, path, i)
  {
    if Matches(m, pattern, path) {
      if pattern[0] == DOUBLE_STAR {
        var i :| 0 <= i <= |path| && Matches(m, pattern[1..], path[i..]);
        assert Peels(m, pattern, path, i);
      } else {
        assert Peels(m, pattern, path, 1);
      }
    }
  }

  // The recursion succeeds exactly on the paths that split.
  lemma {:induction false} MatchesIsSplit(m: Matcher, pattern: seq<string>, path: seq<string>)
    ensures Matches(m, pattern, path) <==> exists chunks :: Splits(m, pattern, path, chunks)
    decreases |pattern|
  {
    if pattern == [] {
      if path == [] {
        assert Splits(m, pattern, path, []);
      }
    } else {
      MatchesByPeeling(m, pattern, path);
      if i: int :| Peels(m, pattern, path, i) {
        MatchesIsSplit(m, pattern[1..], path[i..]);
        var rest :| Splits(m, pattern[1..], path[i..], rest);
        SplitExtends(m, pattern, path, i, rest);
      }
      if chunks: seq<seq<string>> :| Splits(m, pattern, path, chunks) {
        SplitRests(m, pattern, path, chunks);
        MatchesIsSplit(m, pattern[1..], path[|chunks[0]|..]);
        assert Peels(m, pattern, path, |chunks[0]|);
      }
    }
  }

  lemma SplitExtends(m: Matcher, pattern: seq<string>, path: seq<string>, i: nat, rest: seq<seq<string>>)
    requires pattern != [] && Peels(m, pattern, path, i) && Splits(m, pattern[1..], path[i..], rest)
    ensures Splits(m, pattern, path, [path[..i]] + rest)
  {
    var chunks := [path[..i]] + rest;
    assert chunks[1..] == rest;
    forall k | 0 <= k < |pattern|
      ensures Fits(m, pattern[k], chunks[k])
    {
      if k > 0 {
        assert pattern[k] == pattern[1..][k - 1];
      }
    }
  }

  lemma SplitRests(m: Matcher, pattern: seq<string>, path: seq<string>, chunks: seq<seq<string>>)
    requires pattern != [] && Splits(m, pattern, path, chunks)
    ensures |chunks[0]| <= |path| && path[..|chunks[0]|] == chunks[0]
    ensures Splits(m, pattern[1..], path[|chunks[0]|..], chunks[1..])
  {
    forall k | 0 <= k < |pattern| - 1
      ensures Fits(m, pattern[1..][k], chunks[1..][k])
    {
      assert Fits(m, pattern[k + 1], chunks[k + 1]);
    }
  }

  ghost predicate Halves(m: Matcher, p: seq<string>, q: seq<string>, path: seq<string>, k: int) {
    0 <= k <= |path| && Matches(m, p, path[..k]) && Matches(m, q, path[k..])
  }

  // A concatenated pattern matches exactly the concatenations of what its halves match.
  lemma {:induction false} MatchesConcat(m: Matcher, p: seq<string>, q: seq<string>, path: seq<string>)
    ensures Matches(m, p + q, path) <==> exists k :: Halves(m, p, q, path, k)
    decreases |p|
  {
    var all := p + q;
    if p == [] {
      assert all == q && path[0..] == path && path[..0] == [];
      if Matches(m, all, path) {
        assert Halves(m, p, q, path, 0);
      }
    } else {
      assert all[1..] == p[1..] + q;
      MatchesByPeeling(m, all, path);
      if i: int :| Peels(m, all, path, i) {
        MatchesConcat(m, p[1..], q, path[i..]);
        var k :| Halves(m, p[1..], q, path[i..], k);
        PeelFirstHalf(m, p, q, path, i, k);
      }
      if k: int :| Halves(m, p, q, path, k) {
        MatchesByPeeling(m, p, path[..k]);
        var i :| Peels(m, p, path[..k], i);
        assert path[..k][i..] == path[i..][..k - i] && path[k..] == path[i..][k - i..] && path[..k][..i] == path[..i];
        assert Halves(m, p[1..], q, path[i..], k - i);
        MatchesConcat(m, p[1..], q, path[i..]);
        assert Peels(m, all, path, i);
      }
    }
  }

  lemma PeelFirstHalf(m: Matcher, p: seq<string>, q: seq<string>, path: seq<string>, i: nat, k: nat)
    requires p != [] && i <= |path| && Fits(m, p[0], path[..i]) && Halves(m, p[1..], q, path[i..], k)
    ensures Halves(m, p, q, path, i + k)
  {
    var head := path[..i + k];
    assert head[i..] == path[i..][..k] && head[..i] == path[..i] && path[i..][k..] == path[i + k..];
    MatchesByPeeling(m, p, head);
    assert Peels(m, p, head, i);
  }

  // Two ** in a row say no more than one, anywhere in a pattern.
  lemma DoubleStarCollapses(m: Matcher, p: seq<string>, q: seq<string>, path: seq<string>)
    ensures Matches(m, p + (["**", "**"] + q), path) <==> Matches(m, p + (["**"] + q), path)
  {
    var one, two := ["**"] + q, ["**", "**"] + q;
    MatchesConcat(m, p, two, path);
    MatchesConcat(m, p, one, path);
    forall k | 0 <= k <= |path|
      ensures Halves(m, p, two, path, k) <==> Halves(m, p, one, path, k)
    {
      StarsCollapse(m, q, path[k..]);
    }
  }

  lemma StarsCollapse(m: Matcher, q: seq<string>, path: seq<string>)
    ensures Matches(m, ["**", "**"] + q, path) <==> Matches(m, ["**"] + q, path)
  {
    var one, two := ["**"] + q, ["**", "**"] + q;
    assert one[1..] == q && two[1..] == one;
    if Matches(m, two, path) {
      var i :| 0 <= i <= |path| && Matches(m, one, path[i..]);
      var j :| 0 <= j <= |path[i..]| && Matches(m, q, path[i..][j..]);
      assert path[i..][j..] == path[i + j..];
    }
    if Matches(m, one, path) {
      assert path[0..] == path;
    }
  }

  // ---- whole surfaces

  function NormalizeSurfacePath(m: Matcher, p: string): string {
    var trimmed := TrimSpace(p);
    if trimmed == "" then ""
    else
      var cleaned := m.clean(TrimPrefix(trimmed, "./"));
      if cleaned == "." then "" else TrimPrefix(cleaned, "/")
  }

  // strings.Split(s, "/")
  function Split(s: string): (r: seq<string>)
    ensures r != []
  {
    if s == "" then [""]
    else
      var rest := Split(s[1..]);
      if s[0] == '/' then [""] + rest else [[s[0]] + rest[0]] + rest[1..]
  }

  function Join(segments: seq<string>): string
    requires segments != []
  {
    if |segments| == 1 then segments[0] else segments[0] + "/" + Join(segments[1..])
  }

  predicate MatchSurface(m: Matcher, surface: string, observed: string) {
    var s, p := NormalizeSurfacePath(m, surface), NormalizeSurfacePath(m, observed);
    if s == "" || p == "" then false
    else if s == p then true
    else if !ContainsAny(s, "*?[") then HasPrefix(p, s + "/")
    else Matches(m, Split(s), Split(p))
  }

  lemma {:induction false} JoinSplit(s: string)
    ensures Join(Split(s)) == s
  {
    if s != "" {
      var rest := Split(s[1..]);
      JoinSplit(s[1..]);
      assert s == [s[0]] + s[1..];
      if s[0] == '/' {
        assert ([""] + rest)[1..] == rest;
      } else if |rest| > 1 {
        var all := [[s[0]] + rest[0]] + rest[1..];
        assert all[1..] == rest[1..];
        assert Join(all) == [s[0]] + rest[0] + "/" + Join(rest[1..]);
      }
    }
  }

  lemma {:induction false} SplitAtSlash(a: string, b: string)
    ensures Split(a + "/" + b) == Split(a) + Split(b)
  {
    var all := a + "/" + b;
    if a == "" {
      assert all[1..] == b;
    } else {
      assert all[1..] == a[1..] + "/" + b;
      SplitAtSlash(a[1..], b);
    }
  }

  lemma {:induction false} JoinConcat(a: seq<string>, b: seq<string>)
    requires a != [] && b != []
    ensures Join(a + b) == Join(a) + "/" + Join(b)
  {
    if |a| > 1 {
      JoinConcat(a[1..], b);
      assert (a + b)[1..] == a[1..] + b;
    }
  }

  // A surface without wildcards covers exactly the paths whose leading segments are its own: itself and all
  // below it, never a sibling whose name merely begins the same way.
  lemma DirectoryCovers(m: Matcher, surface: string, observed: string)
    requires !ContainsAny(NormalizeSurfacePath(m, surface), "*?[")
    ensures var s, p := NormalizeSurfacePath(m, surface), NormalizeSurfacePath(m, observed);
      MatchSurface(m, surface, observed) <==> s != "" && p != "" && Split(s) <= Split(p)
  {
    var s, p := NormalizeSurfacePath(m, surface), NormalizeSurfacePath(m, observed);
    if s + "/" <= p {
      var rest := p[|s| + 1..];
      assert p == s + "/" + rest;
      SplitAtSlash(s, rest);
    }
    if Split(s) <= Split(p) && s != p {
      JoinSplit(s);
      JoinSplit(p);
      var rest := Split(p)[|Split(s)|..];
      assert Split(p) == Split(s) + rest;
      assert rest == [] ==> Split(p) == Split(s);
      if rest != [] {
        JoinConcat(Split(s), rest);
      }
    }
  }

  // Of a surface or file only the cleaned path counts: a leading ./ or slash and white space around it do not.
  lemma PathSpellings(m: Matcher, p: string, lead: string, slash: string, a: string, b: string)
    requires Blank(a) && Blank(b) && lead in {"", "./"} && slash in {"", "/"}
    requires Tight(p) && p != "." && p[0] != '/' && !HasPrefix(p, "./") && m.clean(slash + p) == slash + p
    ensures NormalizeSurfacePath(m, a + (lead + (slash + p)) + b) == p
  {
    var path := slash + p;
    var full := lead + path;
    assert full[|full| - 1] == p[|p| - 1];
    assert full[0] == if lead != "" then '.' else if slash != "" then '/' else p[0];
    TrimPadded(a, full, b);
    LeadGoes(p, slash, lead);
    SlashGoes(p, slash);
  }

  lemma LeadGoes(p: string, slash: string, lead: string)
    requires p != "" && p != "." && !HasPrefix(p, "./") && slash in {"", "/"} && lead in {"", "./"}
    ensures TrimPrefix(lead + (slash + p), "./") == slash + p
  {
    var path := slash + p;
    var full := lead + path;
    if lead == "" {
      var k := if slash == "" && p[0] == '.' then 1 else 0;
      assert full == path && (slash == "" ==> path == p) && path[k] != "./"[k];
    } else {
      assert full[2..] == path;
    }
  }

  lemma SlashGoes(p: string, slash: string)
    requires p != "" && p != "." && p[0] != '/' && slash in {"", "/"}
    ensures slash + p != "." && TrimPrefix(slash + p, "/") == p
  {
    assert slash == "" ==> slash + p == p;
    assert slash == "/" ==> (slash + p)[1..] == p && (slash + p)[0] == '/';
  }

  // Blank text and the root name nothing, and cover nothing.
  lemma NoPath(m: Matcher, a: string, other: string)
    requires Blank(a) || (a == "." && m.clean(".") == ".")
    ensures NormalizeSurfacePath(m, a) == "" && !MatchSurface(m, a, other) && !MatchSurface(m, other, a)
  {
    if Blank(a) {
      TrimPadded(a, "", "");
      assert a + "" + "" == a;
    } else {
      TrimPadded("", ".", "");
      assert "" + "." + "" == ".";
    }
  }

  // A surface with wildcards covers itself and the paths that are cut into consecutive pieces, one for each of
  // its segments: any piece for **, one accepted segment for every other.
  lemma PatternCovers(m: Matcher, surface: string, observed: string)
    requires var s := NormalizeSurfacePath(m, surface); '*' in s || '?' in s || '[' in s
    ensures var s, p := NormalizeSurfacePath(m, surface), NormalizeSurfacePath(m, observed);
      MatchSurface(m, surface, observed) <==>
        p != "" && (s == p || exists chunks :: Splits(m, Split(s), Split(p), chunks))
  {
    var s, p := NormalizeSurfacePath(m, surface), NormalizeSurfacePath(m, observed);
    var i :| 0 <= i < |s| && (s[i] == '*' || s[i] == '?' || s[i] == '[');
    assert "*?["[0] == '*' && "*?["[1] == '?' && "*?["[2] == '[';
    assert ContainsAny(s, "*?[");
    MatchesIsSplit(m, Split(s), Split(p));
    assert s != p && p != "" ==> MatchSurface(m, surface, observed) == Matches(m, Split(s), Split(p));
    if chunks :| Splits(m, Split(s), Split(p), chunks) {
      assert Matches(m, Split(s), Split(p));
    }
  }

  // ---- the verdict on a task's files

  predicate MatchesAny(m: Matcher, surfaces: seq<string>, file: string) {
    exists i :: 0 <= i < |surfaces| && MatchSurface(m, surfaces[i], file)
  }

  function Unmatched(m: Matcher, surfaces: seq<string>, files: seq<string>): seq<string> {
    if files == [] then []
    else
      var n := |files| - 1;
      Unmatched(m, surfaces, files[..n]) + if MatchesAny(m, surfaces, files[n]) then [] else [files[n]]
  }

  function Insert(x: string, s: seq<string>): seq<string> {
    if s == [] || Below(x, s[0]) then [x] + s else [s[0]] + Insert(x, s[1..])
  }

  // sort.Strings
  function Sort(s: seq<string>): seq<string> {
    if s == [] then [] else Insert(s[|s| - 1], Sort(s[..|s| - 1]))
  }

  ghost predicate Ordered(s: seq<string>) {
    forall i, j :: 0 <= i < j < |s| ==> !Below(s[j], s[i])
  }

  datatype Finding = Finding(discrepancies: seq<string>, clean: bool)

  method MatchesAnySurface(m: Matcher, surfaces: seq<string>, file: string) returns (ok: bool)
    ensures ok == MatchesAny(m, surfaces, file)
  {
    for i := 0 to |surfaces|
      invariant forall k :: 0 <= k < i ==> !MatchSurface(m, surfaces[k], file)
    {
      if MatchSurface(m, surfaces[i], file) {
        return true;
      }
    }
    return false;
  }

  // The discrepancies are the observed files no surface covers, each as often as observed, in sorted order;
  // the status is clean exactly when every observed file is covered.
  method VerifyTerritory(m: Matcher, declared: seq<string>, observed: seq<string>) returns (r: Finding)
    ensures r.discrepancies == Sort(Unmatched(m, declared, observed))
    ensures Ordered(r.discrepancies)
    ensures forall f :: multiset(r.discrepancies)[f] == if MatchesAny(m, declared, f) then 0 else multiset(observed)[f]
    ensures r.clean <==> forall i :: 0 <= i < |observed| ==> MatchesAny(m, declared, observed[i])
  {
    var found: seq<string> := [];
    for i := 0 to |observed|
      invariant found == Unmatched(m, declared, observed[..i])
    {
      assert observed[..i + 1][..i] == observed[..i];
      var ok := MatchesAnySurface(m, declared, observed[i]);
      if !ok {
        found := found + [observed[i]];
      }
    }
    assert observed[..|observed|] == observed;
    SortIsOrderedPermutation(found);
    UnmatchedCounts(m, declared, observed);
    var sorted := Sort(found);
    r := Finding(sorted, |sorted| == 0);
    CleanMeansCovered(m, declared, observed);
    assert |sorted| == |multiset(sorted)| == |found|;
  }

  lemma CleanMeansCovered(m: Matcher, surfaces: seq<string>, files: seq<string>)
    ensures Unmatched(m, surfaces, files) == [] <==> forall i :: 0 <= i < |files| ==> MatchesAny(m, surfaces, files[i])
  {
    UnmatchedCounts(m, surfaces, files);
    var u := Unmatched(m, surfaces, files);
    if u != [] {
      assert u[0] in multiset(u);
      assert multiset(files)[u[0]] > 0;
      assert u[0] in files;
    }
    forall i | 0 <= i < |files| && u == []
      ensures MatchesAny(m, surfaces, files[i])
    {
      assert files[i] in multiset(files) && multiset(u)[files[i]] == 0;
    }
  }

  lemma {:induction false} UnmatchedCounts(m: Matcher, surfaces: seq<string>, files: seq<string>)
    ensures forall f :: multiset(Unmatched(m, surfaces, files))[f] == if MatchesAny(m, surfaces, f) then 0 else multiset(files)[f]
  {
    if files != [] {
      var n := |files| - 1;
      UnmatchedCounts(m, surfaces, files[..n]);
      assert files == files[..n] + [files[n]];
    }
  }

  lemma CoveredByMore(m: Matcher, some: seq<string>, more: seq<string>, f: string)
    requires (forall s :: s in some ==> s in more) && MatchesAny(m, some, f)
    ensures MatchesAny(m, more, f)
  {
    var i :| 0 <= i < |some| && MatchSurface(m, some[i], f);
    assert some[i] in some;
    var j :| 0 <= j < |more| && more[j] == some[i];
    assert MatchSurface(m, more[j], f);
  }

  // Declaring more surfaces never adds a discrepancy.
  lemma MoreSurfacesShrink(m: Matcher, some: seq<string>, more: seq<string>, files: seq<string>)
    requires forall s :: s in some ==> s in more
    ensures multiset(Sort(Unmatched(m, more, files))) <= multiset(Sort(Unmatched(m, some, files)))
  {
    SortIsOrderedPermutation(Unmatched(m, more, files));
    SortIsOrderedPermutation(Unmatched(m, some, files));
    UnmatchedCounts(m, more, files);
    UnmatchedCounts(m, some, files);
    forall f
      ensures multiset(Unmatched(m, more, files))[f] <= multiset(Unmatched(m, some, files))[f]
    {
      if MatchesAny(m, some, f) {
        CoveredByMore(m, some, more, f);
      }
    }
  }

  lemma {:induction false} InsertCounts(x: string, s: seq<string>)
    ensures multiset(Insert(x, s)) == multiset(s) + multiset{x}
  {
    if s != [] && !Below(x, s[0]) {
      InsertCounts(x, s[1..]);
      assert s == [s[0]] + s[1..];
    }
  }

  lemma InsertMembers(x: string, s: seq<string>, y: string)
    requires y in Insert(x, s)
    ensures y == x || y in s
  {
    InsertCounts(x, s);
    assert y in multiset(Insert(x, s));
  }

  lemma {:induction false} InsertOrdered(x: string, s: seq<string>)
    requires Ordered(s)
    ensures Ordered(Insert(x, s))
  {
    if s != [] && !Below(x, s[0]) {
      InsertOrdered(x, s[1..]);
      var rest := Insert(x, s[1..]);
      forall j | 0 <= j < |rest|
        ensures !Below(rest[j], s[0])
      {
        InsertMembers(x, s[1..], rest[j]);
        if rest[j] != x {
          var k :| 0 <= k < |s[1..]| && s[1..][k] == rest[j];
          assert s[k + 1] == rest[j];
        }
      }
    } else {
      forall j | 0 <= j < |s|
        ensures !Below(s[j], x)
      {
        BelowIsStrictTotal(s[j], x, s[0]);
        BelowIsStrictTotal(x, s[0], s[j]);
      }
    }
  }

  // Sorting yields an ordered permutation.
  lemma {:induction false} SortIsOrderedPermutation(s: seq<string>)
    ensures Ordered(Sort(s)) && multiset(Sort(s)) == multiset(s)
  {
    if s != [] {
      var n := |s| - 1;
      SortIsOrderedPermutation(s[..n]);
      InsertOrdered(s[n], Sort(s[..n]));
      InsertCounts(s[n], Sort(s[..n]));
      assert s == s[..n] + [s[n]];
    }
  }

  lemma SameFirst(a: seq<string>, b: seq<string>)
    requires Ordered(a) && Ordered(b) && multiset(a) == multiset(b) && a != [] && b != []
    ensures a[0] == b[0]
  {
    assert a[0] in multiset(b) && b[0] in multiset(a);
    var i :| 0 <= i < |b| && b[i] == a[0];
    var j :| 0 <= j < |a| && a[j] == b[0];
    BelowIsStrictTotal(a[0], b[0], "");
  }

  // There is only one: any ordered permutation of a list is its sorted form.
  lemma {:induction false} OrderedIsUnique(a: seq<string>, b: seq<string>)
    requires Ordered(a) && Ordered(b) && multiset(a) == multiset(b)
    ensures a == b
  {
    assert |multiset(a)| == |a| && |multiset(b)| == |b|;
    if a != [] {
      SameFirst(a, b);
      assert a == [a[0]] + a[1..] && b == [b[0]] + b[1..];
      assert multiset(a[1..]) == multiset(a) - multiset{a[0]};
      assert multiset(b[1..]) == multiset(b) - multiset{b[0]};
      OrderedIsUnique(a[1..], b[1..]);
    }
  }
}
