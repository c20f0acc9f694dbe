// Territory clashes (pkg/protocol/federation.go) and the running-conflict oracle
// (pkg/server/federation/manager.go).
module Federation {
  import opened Wrappers
  import opened Text
  import opened Sequences

  // Go's path, Unicode-case and SHA-256 functions. `fold` picks one representative per class of
  // strings.EqualFold, so two strings are equal under folding iff their representatives are the same.
  datatype Host = Host(
    clean: string -> string,
    pathMatch: (string, string) -> bool,
    lower: string -> string,
    fold: string -> string,
    sha: string -> string)

  ghost predicate CollisionFree(h: Host) {
    && (forall s :: h.sha(s) != "")
    && (forall s, t :: h.sha(s) == h.sha(t) ==> s == t)
  }

  datatype Territory = Territory(taskId: string, repo: string, branch: string, surfaces: seq<string>, summary: string)

  datatype ConflictType = BranchLocked | SurfaceOverlap | DuplicateTask

  datatype Conflict = Conflict(kind: ConflictType, existing: Territory)

  // strings.Index, -1 when absent
  function Index(s: string, sub: string): (i: int)
    ensures -1 <= i && (i >= 0 ==> i + |sub| <= |s|)
  {
    if sub <= s then 0
    else if s == [] then -1
    else
      var i := Index(s[1..], sub);
      if i < 0 then -1 else i + 1
  }

  function NormalizeRepo(h: Host, repo: string): string {
    var r := TrimSpace(repo);
    if r == "" then ""
    else h.lower(WithoutScheme(TrimSuffix(TrimSuffix(r, "/"), ".git")))
  }

  function WithoutScheme(bare: string): string {
    var at := Index(bare, "://");
    if at >= 0 then bare[at + 3..]
    else if HasPrefix(bare, "git@") then
      var path := bare[4..];
      var colon := Index(path, ":");
      if colon < 0 then path else path[..colon] + "/" + path[colon + 1..]
    else bare
  }

  lemma {:induction false} IndexIs(s: string, sub: string, i: nat)
    requires sub != "" && i + |sub| <= |s| && sub <= s[i..] && forall j :: 0 <= j < i ==> s[j] != sub[0]
    ensures Index(s, sub) == i
  {
    if i > 0 {
      assert s[1..][i - 1..] == s[i..];
      IndexIs(s[1..], sub, i - 1);
    }
  }

  lemma {:induction false} IndexAbsent(s: string, sub: string)
    requires |sub| >= 2 && forall j :: 0 <= j < |s| && s[j] == sub[0] ==> j + 1 < |s| && s[j + 1] != sub[1]
    ensures Index(s, sub) == -1
  {
    if s != "" {
      assert s[0] == sub[0] ==> |s| > 1 && s[1] != sub[1];
      assert !(sub <= s);
      IndexAbsent(s[1..], sub);
    }
  }

  // The ways one repository is spelled.
  datatype Spelling = Url(scheme: string) | Scp | Bare

  function Address(w: Spelling, server: string, path: string): string {
    match w
    case Url(scheme) => scheme + "://" + server + "/" + path
    case Scp => "git@" + server + ":" + path
    case Bare => server + "/" + path
  }

  predicate Plain(w: Spelling, server: string, path: string) {
    && Tight(server) && Tight(path) && ':' !in server && '@' !in server && ':' !in path
    && path[0] != '/' && !HasSuffix(path, "/") && !HasSuffix(path, ".git")
    && (w.Url? ==> Tight(w.scheme) && ':' !in w.scheme)
  }

  // However it is spelled, and with or without the ending, a repository is its server and path in lower case.
  lemma SpellingsNormalize(h: Host, w: Spelling, server: string, path: string, ending: string, a: string, b: string)
    requires Plain(w, server, path) && Blank(a) && Blank(b) && ending in {"", "/", ".git", ".git/"}
    ensures NormalizeRepo(h, a + (Address(w, server, path) + ending) + b) == h.lower(server + "/" + path)
  {
    var full := Address(w, server, path);
    AddressEnds(w, server, path);
    AddressIsTight(w, server, path, ending);
    TrimPadded(a, full + ending, b);
    EndingGoes(full, path, ending);
    SchemeGoes(w, server, path);
  }

  lemma AddressEnds(w: Spelling, server: string, path: string)
    ensures var full := Address(w, server, path);
      |full| > |path| && full[|full| - |path|..] == path && full[|full| - |path| - 1] in {'/', ':'}
  {
  }

  lemma AddressIsTight(w: Spelling, server: string, path: string, ending: string)
    requires Plain(w, server, path) && ending in {"", "/", ".git", ".git/"}
    ensures Tight(Address(w, server, path) + ending)
  {
    AddressEnds(w, server, path);
    var full := Address(w, server, path);
    assert full[|full| - 1] == path[|path| - 1];
    assert full[0] == match w case Url(scheme) => scheme[0] case Scp => 'g' case Bare => server[0];
  }

  lemma SchemeGoes(w: Spelling, server: string, path: string)
    requires Plain(w, server, path)
    ensures WithoutScheme(Address(w, server, path)) == server + "/" + path
  {
    match w
    case Url(scheme) => UrlGoes(scheme, server, path);
    case Scp => ScpGoes(server, path);
    case Bare => BareStays(server, path);
  }

  lemma UrlGoes(scheme: string, server: string, path: string)
    requires ':' !in scheme
    ensures WithoutScheme(Address(Url(scheme), server, path)) == server + "/" + path
  {
    var full := Address(Url(scheme), server, path);
    assert full[|scheme|..] == "://" + server + "/" + path;
    IndexIs(full, "://", |scheme|);
    assert full[|scheme| + 3..] == server + "/" + path;
  }

  lemma ScpGoes(server: string, path: string)
    requires path != "" && ':' !in server && ':' !in path && path[0] != '/'
    ensures WithoutScheme(Address(Scp, server, path)) == server + "/" + path
  {
    var full := Address(Scp, server, path);
    var rest := full[4..];
    assert rest == server + ":" + path && full[..4] == "git@";
    assert full[4 + |server|] == ':' && full[5 + |server|] == path[0];
    IndexAbsent(full, "://");
    assert rest[|server|..] == ":" + path;
    IndexIs(rest, ":", |server|);
    assert rest[..|server|] == server && rest[|server| + 1..] == path;
  }

  lemma BareStays(server: string, path: string)
    requires server != "" && ':' !in server && '@' !in server && ':' !in path
    ensures WithoutScheme(Address(Bare, server, path)) == server + "/" + path
  {
    var full := Address(Bare, server, path);
    IndexAbsent(full, "://");
    var k := if |server| < 4 then |server| else 3;
    assert full[k] != "git@"[k];
  }

  lemma EndingGoes(full: string, path: string, ending: string)
    requires ending in {"", "/", ".git", ".git/"} && path != "" && !HasSuffix(path, "/") && !HasSuffix(path, ".git")
    requires |full| > |path| && full[|full| - |path|..] == path && full[|full| - |path| - 1] in {'/', ':'}
    ensures TrimSuffix(TrimSuffix(full + ending, "/"), ".git") == full
  {
    var all := full + ending;
    assert path[|path| - 1..] == [path[|path| - 1]];
    assert full[|full| - 1] == path[|path| - 1] != '/';
    if ending == "" || ending == ".git" {
      assert !HasSuffix(all, "/");
    } else {
      assert HasSuffix(all, "/");
    }
    var bare := TrimSuffix(all, "/");
    if ending == "" || ending == "/" {
      assert bare == full;
      GitEnding(full, path);
    } else {
      assert bare == full + ".git";
      assert bare[|full|..] == ".git";
    }
  }

  lemma GitEnding(full: string, path: string)
    requires |full| > |path| && full[|full| - |path|..] == path && full[|full| - |path| - 1] in {'/', ':'}
    ensures HasSuffix(full, ".git") ==> HasSuffix(path, ".git")
  {
    if HasSuffix(full, ".git") {
      var at := |full| - |path| - 1;
      assert full[|full| - 4..][0] == full[|full| - 4] == '.' && full[|full| - 4..][1] == full[|full| - 3] == 'g'
        && full[|full| - 4..][2] == full[|full| - 2] == 'i' && full[|full| - 4..][3] == full[|full| - 1] == 't';
      assert |path| >= 4;
      assert path[|path| - 4..] == full[|full| - 4..];
    }
  }

  datatype Spelled = Spelled(form: Spelling, server: string, path: string, ending: string)

  function Written(r: Spelled): string {
    Address(r.form, r.server, r.path) + r.ending
  }

  function Name(r: Spelled): string {
    r.server + "/" + r.path
  }

  predicate WellSpelled(r: Spelled) {
    Plain(r.form, r.server, r.path) && r.ending in {"", "/", ".git", ".git/"}
  }

  // Two spellings name one repository exactly when server and path agree up to case.
  lemma SpellingsMatch(h: Host, r: Spelled, q: Spelled)
    requires WellSpelled(r) && WellSpelled(q) && h.lower(Name(r)) != "" && h.lower(Name(q)) != ""
    ensures RepositoriesMatch(h, Written(r), Written(q)) <==> h.lower(Name(r)) == h.lower(Name(q))
  {
    SpellingNormalizes(h, r);
    SpellingNormalizes(h, q);
  }

  lemma SpellingNormalizes(h: Host, r: Spelled)
    requires WellSpelled(r)
    ensures NormalizeRepo(h, Written(r)) == h.lower(Name(r))
  {
    SpellingsNormalize(h, r.form, r.server, r.path, r.ending, "", "");
    assert "" + Written(r) + "" == Written(r);
  }

  // Blank text names no repository.
  lemma NoRepository(h: Host, a: string, other: string)
    requires Blank(a)
    ensures NormalizeRepo(h, a) == "" && !RepositoriesMatch(h, a, other) && !RepositoriesMatch(h, other, a)
  {
    TrimPadded(a, "", "");
    assert a + "" + "" == a;
  }

  predicate RepositoriesMatch(h: Host, a: string, b: string) {
    var x, y := NormalizeRepo(h, a), NormalizeRepo(h, b);
    x != "" && y != "" && x == y
  }

  function CleanSurface(h: Host, s: string): (r: string)
    ensures r != ""
  {
    var cleaned := h.clean(TrimSuffix(TrimPrefix(TrimSpace(s), "./"), "/"));
    if cleaned == "" || cleaned == "." then "." else cleaned
  }

  // A leading ./, a trailing slash and white space do not matter.
  lemma SurfaceSpellings(h: Host, p: string, lead: string, end: string, a: string, b: string)
    requires Blank(a) && Blank(b) && lead in {"", "./"} && end in {"", "/"}
    requires Tight(p) && p != "." && !HasPrefix(p, "./") && !HasSuffix(p, "/") && h.clean(p) == p
    ensures CleanSurface(h, a + (lead + p + end) + b) == p
  {
    var full := lead + p + end;
    assert full[0] == (if lead == "" then p[0] else '.');
    assert full[|full| - 1] == (if end == "" then p[|p| - 1] else '/');
    TrimPadded(a, full, b);
    LeadGoes(p, lead, end);
    EndGoes(p, end);
  }

  lemma LeadGoes(p: string, lead: string, end: string)
    requires p != "" && p != "." && !HasPrefix(p, "./") && lead in {"", "./"}
    ensures TrimPrefix(lead + p + end, "./") == p + end
  {
    var full, rest := lead + p + end, p + end;
    assert full == lead + rest;
    if lead == "" {
      var k := if p[0] == '.' then 1 else 0;
      assert full == rest && rest[k] == p[k] != "./"[k];
    } else {
      assert full[2..] == rest;
    }
  }

  lemma EndGoes(p: string, end: string)
    requires p != "" && !HasSuffix(p, "/") && end in {"", "/"}
    ensures TrimSuffix(p + end, "/") == p
  {
    assert (p + end)[..|p|] == p;
    assert end == "" ==> p + end == p;
    assert end == "/" ==> (p + end)[|p|..] == "/";
  }

  // What cleans to nothing or to a dot is the whole tree, and the whole tree overlaps everything.
  lemma WholeTree(h: Host, s: string, other: string)
    requires h.clean("") in {"", "."} && h.clean(".") == "."
    requires s in {"", ".", "./"}
    ensures CleanSurface(h, s) == "." && SurfacesOverlap(h, s, other)
  {
    TrimPadded("", s, "");
    assert "" + s + "" == s;
    if s == "" {
      assert CleanSurface(h, s) == ".";
    } else if s == "." {
      assert !HasPrefix(s, "./") && !HasSuffix(s, "/");
    } else {
      assert s[2..] == "";
    }
  }

  // The four stages for a glob c1 against c2; the source runs them for both sides in turn.
  predicate GlobCovers(h: Host, c1: string, c2: string) {
    ContainsAny(c1, "*?[]") &&
    (h.pathMatch(c1, c2) ||
     var base := TrimSuffix(TrimSuffix(c1, "/*"), "/**");
     base != c1 && (c2 == base || HasPrefix(c2, base + "/")))
  }

  predicate SurfacesOverlap(h: Host, s1: string, s2: string) {
    var c1, c2 := CleanSurface(h, s1), CleanSurface(h, s2);
    if c1 == "." || c2 == "." then true
    else if c1 == c2 then true
    else if HasPrefix(c2, c1 + "/") || HasPrefix(c1, c2 + "/") then true
    else if GlobCovers(h, c1, c2) then true
    else GlobCovers(h, c2, c1)
  }

  // The glob c1 is `base` followed by one wildcard ending (/*, /** or /**/*), and c2 is base or lies below it.
  ghost predicate Under(c1: string, base: string, c2: string) {
    && (c1 == base + "/**/*" || c1 == base + "/**" || (c1 == base + "/*" && !HasSuffix(base, "/**")))
    && (c2 == base || base + "/" <= c2)
  }

  // c1 names c2 itself, an ancestor directory of it, or a glob that takes it in.
  ghost predicate Covers(h: Host, c1: string, c2: string) {
    || c1 == "."
    || c1 == c2
    || c1 + "/" <= c2
    || (ContainsAny(c1, "*?[]") && (h.pathMatch(c1, c2) || exists base :: Under(c1, base, c2)))
  }

  lemma GlobCoversMeaning(h: Host, c1: string, c2: string)
    ensures GlobCovers(h, c1, c2) <==>
      ContainsAny(c1, "*?[]") && (h.pathMatch(c1, c2) || exists base :: Under(c1, base, c2))
  {
    var once := TrimSuffix(c1, "/*");
    var base := TrimSuffix(once, "/**");
    assert once != c1 ==> c1 == once + "/*";
    assert base != once ==> once == base + "/**";
    if base != c1 && (c2 == base || HasPrefix(c2, base + "/")) {
      if base == once {
        assert Under(c1, base, c2);
      } else if once == c1 {
        assert Under(c1, base, c2);
      } else {
        assert c1 == base + "/**/*";
        assert Under(c1, base, c2);
      }
    }
    if other: string :| Under(c1, other, c2) {
      if c1 == other + "/**/*" {
        assert HasSuffix(c1, "/*") && once == other + "/**" && base == other;
      } else if c1 == other + "/**" {
        assert c1[|c1| - 2..] == "**";
        assert once == c1 && base == other;
      } else {
        assert once == other && base == other;
      }
    }
  }

  // Two surfaces overlap iff one of the cleaned paths takes in the other.
  lemma OverlapMeaning(h: Host, s1: string, s2: string)
    ensures var c1, c2 := CleanSurface(h, s1), CleanSurface(h, s2);
      SurfacesOverlap(h, s1, s2) <==> Covers(h, c1, c2) || Covers(h, c2, c1)
    ensures SurfacesOverlap(h, s1, s2) <==> SurfacesOverlap(h, s2, s1)
  {
    var c1, c2 := CleanSurface(h, s1), CleanSurface(h, s2);
    GlobCoversMeaning(h, c1, c2);
    GlobCoversMeaning(h, c2, c1);
  }

  ghost predicate AnyOverlap(h: Host, a: seq<string>, b: seq<string>) {
    exists i, j :: 0 <= i < |a| && 0 <= j < |b| && SurfacesOverlap(h, a[i], b[j])
  }

  lemma AnyOverlapSymmetric(h: Host, a: seq<string>, b: seq<string>)
    requires AnyOverlap(h, a, b)
    ensures AnyOverlap(h, b, a)
  {
    var i, j :| 0 <= i < |a| && 0 <= j < |b| && SurfacesOverlap(h, a[i], b[j]);
    OverlapMeaning(h, a[i], b[j]);
  }

  function OverlapKey(h: Host, a: string, b: string): string {
    var x, y := CleanSurface(h, a), CleanSurface(h, b);
    if x != y then x + " <-> " + y else x
  }

  // The key names both cleaned surfaces, or the one they have in common.
  lemma OverlapKeyNames(h: Host, a: string, b: string)
    ensures var x, y, k := CleanSurface(h, a), CleanSurface(h, b), OverlapKey(h, a, b);
      && x <= k && HasSuffix(k, y) && (x == y ==> k == x) && (x != y ==> k[|x|..|k| - |y|] == " <-> ")
  {
  }

  // Key `k` reports an overlap between the first i surfaces of a (the i-th only up to j) and those of b.
  ghost predicate Reports(h: Host, a: seq<string>, b: seq<string>, k: string, i: nat, j: nat) {
    exists p, q :: 0 <= p < |a| && 0 <= q < |b| && (p < i || (p == i && q < j))
      && SurfacesOverlap(h, a[p], b[q]) && k == OverlapKey(h, a[p], b[q])
  }

  // The reported overlaps: one key per overlapping pair, none twice, and no other key.
  method FindSurfaceOverlaps(h: Host, a: seq<string>, b: seq<string>) returns (overlaps: seq<string>)
    ensures NoRepeat(overlaps)
    ensures forall k :: k in overlaps <==> Reports(h, a, b, k, |a|, 0)
    ensures overlaps != [] <==> AnyOverlap(h, a, b)
  {
    overlaps := [];
    var seen: set<string> := {};
    for i := 0 to |a|
      invariant NoRepeat(overlaps) && seen == Elements(overlaps)
      invariant forall k :: k in overlaps <==> Reports(h, a, b, k, i, 0)
    {
      for j := 0 to |b|
        invariant NoRepeat(overlaps) && seen == Elements(overlaps)
        invariant forall k :: k in overlaps <==> Reports(h, a, b, k, i, j)
      {
        ReportsOneMore(h, a, b, i, j);
        if SurfacesOverlap(h, a[i], b[j]) {
          var key := OverlapKey(h, a[i], b[j]);
          if key !in seen {
            AddElement(overlaps, key);
            seen := seen + {key};
            overlaps := overlaps + [key];
          }
        }
      }
      ReportsNextRow(h, a, b, i);
    }
    if overlaps != [] {
      assert overlaps[0] in overlaps;
    }
    if i, j :| 0 <= i < |a| && 0 <= j < |b| && SurfacesOverlap(h, a[i], b[j]) {
      assert Reports(h, a, b, OverlapKey(h, a[i], b[j]), |a|, 0);
    }
  }

  lemma ReportsOneMore(h: Host, a: seq<string>, b: seq<string>, i: nat, j: nat)
    requires i < |a| && j < |b|
    ensures forall k :: Reports(h, a, b, k, i, j + 1) <==>
      Reports(h, a, b, k, i, j) || (SurfacesOverlap(h, a[i], b[j]) && k == OverlapKey(h, a[i], b[j]))
  {
    forall k | Reports(h, a, b, k, i, j)
      ensures Reports(h, a, b, k, i, j + 1)
    {
      var p, q :| 0 <= p < |a| && 0 <= q < |b| && (p < i || (p == i && q < j))
        && SurfacesOverlap(h, a[p], b[q]) && k == OverlapKey(h, a[p], b[q]);
    }
    if SurfacesOverlap(h, a[i], b[j]) {
      assert Reports(h, a, b, OverlapKey(h, a[i], b[j]), i, j + 1);
    }
  }

  lemma ReportsNextRow(h: Host, a: seq<string>, b: seq<string>, i: nat)
    requires i < |a|
    ensures forall k :: Reports(h, a, b, k, i, |b|) <==> Reports(h, a, b, k, i + 1, 0)
  {
  }

  // strings.Fields joined by single blanks
  function JoinFields(s: string): string
    decreases |s|
  {
    var word := FirstWord(s);
    var rest := s[|word|..];
    var tail := TrimLeft(rest);
    if |tail| >= |s| then word
    else if word == "" then JoinFields(tail)
    else if tail == "" then word
    else word + " " + JoinFields(tail)
  }

  function FirstWord(s: string): (w: string)
    ensures w <= s
  {
    if s == "" || IsSpace(s[0]) then "" else [s[0]] + FirstWord(s[1..])
  }

  // Words with the gaps before, between and after them.
  function Line(gaps: seq<string>, words: seq<string>): string
    requires |gaps| == |words| + 1
    decreases |words|
  {
    if words == [] then gaps[0] else gaps[0] + (words[0] + Line(gaps[1..], words[1..]))
  }

  function Joined(words: seq<string>): string {
    if words == [] then "" else if |words| == 1 then words[0] else words[0] + " " + Joined(words[1..])
  }

  predicate Word(w: string) {
    w != "" && forall i :: 0 <= i < |w| ==> !IsSpace(w[i])
  }

  ghost predicate IsLine(gaps: seq<string>, words: seq<string>) {
    && |gaps| == |words| + 1
    && (forall i :: 0 <= i < |gaps| ==> Blank(gaps[i]))
    && (forall i :: 0 < i < |words| ==> gaps[i] != "")
    && (forall i :: 0 <= i < |words| ==> Word(words[i]))
  }

  // The same words in the same order, one blank between them, whatever white space they were written with.
  lemma {:induction false} FieldsRejoined(gaps: seq<string>, words: seq<string>)
    requires IsLine(gaps, words)
    ensures JoinFields(Line(gaps, words)) == Joined(words)
    decreases |words|, |gaps[0]|
  {
    var s := Line(gaps, words);
    if gaps[0] != "" {
      FieldsAfterGap(gaps, words);
      FieldsRejoined([""] + gaps[1..], words);
    } else if words != [] {
      var w, rest := words[0], Line(gaps[1..], words[1..]);
      assert "" + (w + rest) == w + rest;
      FirstIs(w, rest, gaps, words);
      assert s[|w|..] == rest;
      if |words| == 1 {
        LeftOfBlank(rest);
      } else {
        GapGoes(gaps[1..], words[1..]);
        FieldsRejoined([""] + gaps[2..], words[1..]);
        assert gaps[1..][1..] == gaps[2..];
      }
    }
  }

  lemma FieldsAfterGap(gaps: seq<string>, words: seq<string>)
    requires IsLine(gaps, words) && gaps[0] != ""
    ensures IsLine([""] + gaps[1..], words)
    ensures JoinFields(Line(gaps, words)) == JoinFields(Line([""] + gaps[1..], words))
  {
    var s := Line(gaps, words);
    var rest := [""] + gaps[1..];
    assert rest[1..] == gaps[1..];
    GapGoes(gaps, words);
    assert s[0] == gaps[0][0];
    assert FirstWord(s) == "" && s[0..] == s;
    assert |Line(rest, words)| < |s|;
  }

  lemma {:induction false} GapGoes(gaps: seq<string>, words: seq<string>)
    requires IsLine(gaps, words)
    ensures TrimLeft(Line(gaps, words)) == Line([""] + gaps[1..], words)
  {
    var rest := [""] + gaps[1..];
    assert rest[1..] == gaps[1..];
    if words == [] {
      LeftOfBlank(gaps[0]);
    } else {
      var tail := words[0] + Line(gaps[1..], words[1..]);
      assert tail[0] == words[0][0];
      assert "" + tail == tail;
      LeftPadded(gaps[0], tail);
    }
  }

  lemma {:induction false} LeftPadded(a: string, s: string)
    requires Blank(a) && s != "" && !IsSpace(s[0])
    ensures TrimLeft(a + s) == s
  {
    if a == "" {
      assert a + s == s;
    } else {
      assert (a + s)[0] == a[0] && (a + s)[1..] == a[1..] + s;
      LeftPadded(a[1..], s);
    }
  }

  lemma FirstIs(w: string, rest: string, gaps: seq<string>, words: seq<string>)
    requires IsLine(gaps, words) && words != [] && w == words[0] && rest == Line(gaps[1..], words[1..])
    ensures FirstWord(w + rest) == w
  {
    if rest != "" {
      assert rest[0] == gaps[1][0];
    }
    WordEnds(w, rest);
  }

  lemma {:induction false} WordEnds(w: string, rest: string)
    requires (forall i :: 0 <= i < |w| ==> !IsSpace(w[i])) && (rest == "" || IsSpace(rest[0]))
    ensures FirstWord(w + rest) == w
  {
    if w == "" {
      assert w + rest == rest;
    } else {
      assert (w + rest)[1..] == w[1..] + rest;
      WordEnds(w[1..], rest);
    }
  }

  function NormalizeTaskSummary(h: Host, s: string): string {
    var trimmed := TrimSpace(s);
    if trimmed == "" then "" else JoinFields(h.lower(trimmed))
  }

  // What is compared of a summary: its words in lower case.
  lemma SummaryMeans(h: Host, a: string, s: string, b: string, gaps: seq<string>, words: seq<string>)
    requires Blank(a) && Blank(b) && Tight(s) && IsLine(gaps, words) && h.lower(s) == Line(gaps, words)
    ensures NormalizeTaskSummary(h, a + s + b) == Joined(words)
    ensures NormalizeTaskSummary(h, a) == ""
  {
    TrimPadded(a, s, b);
    FieldsRejoined(gaps, words);
    TrimPadded(a, "", "");
    assert a + "" + "" == a;
  }

  function Fingerprint(h: Host, t: Territory): string {
    var repo, summary := NormalizeRepo(h, t.repo), NormalizeTaskSummary(h, t.summary);
    if repo == "" && summary == "" then "" else h.sha(repo + "\n" + summary)
  }

  predicate SameBranch(h: Host, a: Territory, b: Territory) {
    var x, y := TrimSpace(a.branch), TrimSpace(b.branch);
    x != "" && y != "" && h.fold(x) == h.fold(y)
  }

  // The stages of ClashesWith in order; which one answers first fixes the reported kind.
  ghost function Clash(h: Host, t: Territory, other: Territory): Option<ConflictType> {
    if !RepositoriesMatch(h, t.repo, other.repo) then None
    else if SameBranch(h, t, other) then Some(BranchLocked)
    else if AnyOverlap(h, t.surfaces, other.surfaces) then Some(SurfaceOverlap)
    else if t.taskId != "" && other.taskId != "" && t.taskId == other.taskId then Some(DuplicateTask)
    else
      var x, y := NormalizeTaskSummary(h, t.summary), NormalizeTaskSummary(h, other.summary);
      if x != "" && y != "" && x == y then Some(DuplicateTask)
      else if Fingerprint(h, t) != "" && Fingerprint(h, other) != "" && Fingerprint(h, t) == Fingerprint(h, other)
      then Some(DuplicateTask)
      else None
  }

  method ClashesWith(h: Host, t: Territory, other: Territory) returns (conflict: Option<Conflict>)
    ensures conflict == match Clash(h, t, other) case None => None case Some(kind) => Some(Conflict(kind, other))
  {
    if !RepositoriesMatch(h, t.repo, other.repo) {
      return None;
    }
    if SameBranch(h, t, other) {
      return Some(Conflict(BranchLocked, other));
    }
    if |t.surfaces| > 0 && |other.surfaces| > 0 {
      var overlaps := FindSurfaceOverlaps(h, t.surfaces, other.surfaces);
      if |overlaps| > 0 {
        return Some(Conflict(SurfaceOverlap, other));
      }
    }
    if t.taskId != "" && other.taskId != "" && t.taskId == other.taskId {
      return Some(Conflict(DuplicateTask, other));
    }
    var x, y := NormalizeTaskSummary(h, t.summary), NormalizeTaskSummary(h, other.summary);
    if x != "" && y != "" && x == y {
      return Some(Conflict(DuplicateTask, other));
    }
    var fpA, fpB := Fingerprint(h, t), Fingerprint(h, other);
    if fpA != "" && fpB != "" && fpA == fpB {
      return Some(Conflict(DuplicateTask, other));
    }
    return None;
  }

  // The relation is symmetric through all its stages: both sides report the same kind.
  lemma ClashSymmetric(h: Host, a: Territory, b: Territory)
    ensures Clash(h, a, b) == Clash(h, b, a)
  {
    OverlapBothWays(h, a.surfaces, b.surfaces);
    assert SameBranch(h, a, b) == SameBranch(h, b, a);
    assert RepositoriesMatch(h, a.repo, b.repo) == RepositoriesMatch(h, b.repo, a.repo);
  }

  lemma OverlapBothWays(h: Host, a: seq<string>, b: seq<string>)
    ensures AnyOverlap(h, a, b) == AnyOverlap(h, b, a)
  {
    if AnyOverlap(h, a, b) {
      AnyOverlapSymmetric(h, a, b);
    }
    if AnyOverlap(h, b, a) {
      AnyOverlapSymmetric(h, b, a);
    }
  }

  // With a collision-free hash two territories clash iff their repositories match and they share a branch,
  // a surface, a task id or a normalised summary; two empty summaries are a shared summary, through the
  // fingerprint stage. The first of these that they share is the reported kind.
  lemma ClashMeaning(h: Host, a: Territory, b: Territory)
    requires CollisionFree(h)
    ensures var x, y := TrimSpace(a.branch), TrimSpace(b.branch);
      var branch := x != "" && y != "" && h.fold(x) == h.fold(y);
      var surface := exists p, q :: p in a.surfaces && q in b.surfaces && SurfacesOverlap(h, p, q);
      var task := (a.taskId != "" && a.taskId == b.taskId)
                  || NormalizeTaskSummary(h, a.summary) == NormalizeTaskSummary(h, b.summary);
      && (Clash(h, a, b).Some? <==> RepositoriesMatch(h, a.repo, b.repo) && (branch || surface || task))
      && (Clash(h, a, b) == Some(BranchLocked) <==> RepositoriesMatch(h, a.repo, b.repo) && branch)
      && (Clash(h, a, b) == Some(SurfaceOverlap) <==> RepositoriesMatch(h, a.repo, b.repo) && !branch && surface)
    ensures ClashesOther(h, a, b) <==> Clash(h, a, b).Some? && (a.taskId == "" || a.taskId != b.taskId)
  {
    if RepositoriesMatch(h, a.repo, b.repo) {
      SamePrint(h, NormalizeRepo(h, a.repo), NormalizeTaskSummary(h, a.summary), NormalizeTaskSummary(h, b.summary));
    }
    OverlapMeans(h, a.surfaces, b.surfaces);
  }

  lemma OverlapMeans(h: Host, a: seq<string>, b: seq<string>)
    ensures AnyOverlap(h, a, b) <==> exists p, q :: p in a && q in b && SurfacesOverlap(h, p, q)
  {
    if p, q :| p in a && q in b && SurfacesOverlap(h, p, q) {
      var i :| 0 <= i < |a| && a[i] == p;
      var j :| 0 <= j < |b| && b[j] == q;
      assert SurfacesOverlap(h, a[i], b[j]);
    }
    if i, j :| 0 <= i < |a| && 0 <= j < |b| && SurfacesOverlap(h, a[i], b[j]) {
      assert a[i] in a && b[j] in b;
    }
  }

  lemma SamePrint(h: Host, repo: string, x: string, y: string)
    requires CollisionFree(h)
    ensures h.sha(repo + "\n" + x) == h.sha(repo + "\n" + y) <==> x == y
  {
    var n := |repo| + 1;
    assert (repo + "\n" + x)[n..] == x && (repo + "\n" + y)[n..] == y;
  }

  ghost predicate ClashesOther(h: Host, t: Territory, other: Territory) {
    !(t.taskId != "" && other.taskId != "" && t.taskId == other.taskId) && Clash(h, t, other).Some?
  }

  method ClashesWithOther(h: Host, t: Territory, other: Territory) returns (conflict: Option<Conflict>)
    ensures conflict.Some? <==> ClashesOther(h, t, other)
    ensures conflict.Some? ==> conflict == Some(Conflict(Clash(h, t, other).value, other))
  {
    if t.taskId != "" && other.taskId != "" && t.taskId == other.taskId {
      return None;
    }
    conflict := ClashesWith(h, t, other);
  }

  ghost predicate ClashesAny(h: Host, t: Territory, manifest: seq<Territory>) {
    exists i :: 0 <= i < |manifest| && ClashesOther(h, t, manifest[i])
  }

  // The clash with the first territory of the manifest that clashes at all.
  ghost predicate FirstClash(h: Host, t: Territory, manifest: seq<Territory>, conflict: Conflict) {
    exists i :: ClashAt(h, t, manifest, i, conflict)
  }

  ghost predicate ClashAt(h: Host, t: Territory, manifest: seq<Territory>, i: int, conflict: Conflict) {
    && 0 <= i < |manifest| && ClashesOther(h, t, manifest[i])
    && conflict == Conflict(Clash(h, t, manifest[i]).value, manifest[i])
    && NoClashBefore(h, t, manifest, i)
  }

  ghost predicate NoClashBefore(h: Host, t: Territory, manifest: seq<Territory>, n: int)
    requires n <= |manifest|
  {
    forall j :: 0 <= j < n ==> !ClashesOther(h, t, manifest[j])
  }

  lemma NoClashGrows(h: Host, t: Territory, manifest: seq<Territory>, n: nat)
    requires n < |manifest| && NoClashBefore(h, t, manifest, n) && !ClashesOther(h, t, manifest[n])
    ensures NoClashBefore(h, t, manifest, n + 1)
  {
    forall j | 0 <= j < n + 1
      ensures !ClashesOther(h, t, manifest[j])
    {
      assert j < n || j == n;
    }
  }

  type PeerTable = map<string, Option<seq<Territory>>>

  // Some cached peer manifest holds a territory that clashes with t.
  ghost predicate PeersClash(h: Host, peers: PeerTable, t: Territory) {
    exists id :: id in peers && peers[id].Some? && ClashesAny(h, t, peers[id].value)
  }

  // The coordinator's view of its peers: the territories each one last advertised, if any.
  class TerritoryManager {
    const host: Host
    var peers: PeerTable

    constructor (host: Host)
      ensures this.host == host && peers == map[]
    {
      this.host, peers := host, map[];
    }

    method ScanManifest(t: Territory, manifest: seq<Territory>) returns (conflict: Option<Conflict>)
      ensures conflict.Some? <==> ClashesAny(host, t, manifest)
      ensures conflict.Some? ==> FirstClash(host, t, manifest, conflict.value)
    {
      for i := 0 to |manifest|
        invariant NoClashBefore(host, t, manifest, i)
      {
        conflict := ClashesWithOther(host, t, manifest[i]);
        if conflict.Some? {
          assert ClashAt(host, t, manifest, i, conflict.value);
          return;
        }
        NoClashGrows(host, t, manifest, i);
      }
      return None;
    }

    // The next id in the order of sort.Strings.
    method LeastId(ids: set<string>) returns (least: string)
      requires ids != {}
      ensures least in ids && forall o :: o in ids && o != least ==> Below(least, o)
    {
      least :| least in ids;
      var left := ids - {least};
      while left != {}
        invariant left <= ids && least in ids && least !in left
        invariant forall o :: o in ids && o !in left && o != least ==> Below(least, o)
        decreases left
      {
        var id :| id in left;
        left := left - {id};
        BelowIsStrictTotal(id, least, least);
        if Below(id, least) {
          forall o | o in ids && o !in left && o != id
            ensures Below(id, o)
          {
            BelowIsStrictTotal(id, least, o);
          }
          least := id;
        }
      }
    }

    // A conflict is found iff a running territory or a cached peer territory clashes. The first running one
    // wins, and else the first one of the peer with the least id among those that clash.
    method FindRunningConflict(t: Territory, running: seq<Territory>) returns (conflict: Option<Conflict>)
      ensures conflict.Some? <==> ClashesAny(host, t, running) || PeersClash(host, peers, t)
      ensures ClashesAny(host, t, running) ==> FirstClash(host, t, running, conflict.value)
      ensures conflict.Some? && !ClashesAny(host, t, running) ==>
        exists id :: id in peers && peers[id].Some? && FirstClash(host, t, peers[id].value, conflict.value)
          && forall o :: o in peers && peers[o].Some? && Below(o, id) ==> !ClashesAny(host, t, peers[o].value)
    {
      conflict := ScanManifest(t, running);
      if conflict.Some? {
        return;
      }
      var left := peers.Keys;
      while left != {}
        invariant left <= peers.Keys
        invariant forall a, b :: a in left && b in peers && b !in left ==> !Below(a, b)
        invariant forall id :: id in peers && id !in left && peers[id].Some? ==> !ClashesAny(host, t, peers[id].value)
        decreases left
      {
        var id := LeastId(left);
        if peers[id].Some? {
          conflict := ScanManifest(t, peers[id].value);
          if conflict.Some? {
            forall o | o in peers && peers[o].Some? && Below(o, id)
              ensures !ClashesAny(host, t, peers[o].value)
            {
              BelowIsStrictTotal(o, id, id);
            }
            return;
          }
        }
        forall a | a in left && a != id
          ensures !Below(a, id)
        {
          BelowIsStrictTotal(id, a, a);
        }
        left := left - {id};
      }
      return None;
    }
  }
}
