// The string helpers of Go's standard library that the modelled code calls.
module Text {

  // unicode.IsSpace
  predicate IsSpace(c: char) {
    || c == ' ' || '\t' <= c <= '\r' || c == '\U{85}' || c == '\U{A0}' || c == '\U{1680}'
    || '\U{2000}' <= c <= '\U{200A}' || c == '\U{2028}' || c == '\U{2029}' || c == '\U{202F}'
    || c == '\U{205F}' || c == '\U{3000}'
  }

  function TrimLeft(s: string): string {
    if s != [] && IsSpace(s[0]) then TrimLeft(s[1..]) else s
  }

  function TrimRight(s: string): string {
    if s != [] && IsSpace(s[|s| - 1]) then TrimRight(s[..|s| - 1]) else s
  }

  // strings.TrimSpace
  function TrimSpace(s: string): string {
    TrimRight(TrimLeft(s))
  }

  predicate Blank(s: string) {
    forall i :: 0 <= i < |s| ==> IsSpace(s[i])
  }

  // Begins and ends with something to read.
  predicate Tight(s: string) {
    s != "" && !IsSpace(s[0]) && !IsSpace(s[|s| - 1])
  }

  // White space around a text goes, and nothing else does.
  lemma {:induction false} TrimPadded(a: string, s: string, b: string)
    requires Blank(a) && Blank(b) && (Tight(s) || s == "")
    ensures TrimSpace(a + s + b) == s
    decreases |a| + |b|
  {
    var all := a + s + b;
    if a != "" {
      assert all[0] == a[0] && all[1..] == a[1..] + s + b;
      TrimPadded(a[1..], s, b);
    } else if s == "" {
      LeftOfBlank(b);
      assert all == b;
    } else {
      assert all == s + b && all[0] == s[0];
      RightPadded(s, b);
    }
  }

  lemma {:induction false} RightPadded(s: string, b: string)
    requires Blank(b) && Tight(s)
    ensures TrimRight(s + b) == s
  {
    if b == "" {
      assert s + b == s;
    } else {
      var all := s + b;
      assert all[|all| - 1] == b[|b| - 1] && all[..|all| - 1] == s + b[..|b| - 1];
      RightPadded(s, b[..|b| - 1]);
    }
  }

  lemma {:induction false} LeftOfBlank(b: string)
    requires Blank(b)
    ensures TrimLeft(b) == ""
  {
    if b != "" {
      LeftOfBlank(b[1..]);
    }
  }

  // strings.HasPrefix and strings.HasSuffix
  predicate HasPrefix(s: string, p: string) {
    p <= s
  }

  predicate HasSuffix(s: string, p: string) {
    |p| <= |s| && s[|s| - |p|..] == p
  }

  function TrimPrefix(s: string, p: string): string {
    if HasPrefix(s, p) then s[|p|..] else s
  }

  function TrimSuffix(s: string, p: string): string {
    if HasSuffix(s, p) then s[..|s| - |p|] else s
  }

  // strings.ContainsAny
  predicate ContainsAny(s: string, chars: string) {
    exists i :: 0 <= i < |s| && s[i] in chars
  }

  // Number by number, the shorter first.
  predicate LexLess(a: seq<int>, b: seq<int>) {
    b != [] && (a == [] || a[0] < b[0] || (a[0] == b[0] && LexLess(a[1..], b[1..])))
  }

  lemma {:induction false} LexIsStrictTotal(a: seq<int>, b: seq<int>, c: seq<int>)
    ensures !LexLess(a, a)
    ensures LexLess(a, b) ==> !LexLess(b, a)
    ensures a == b || LexLess(a, b) || LexLess(b, a)
    ensures LexLess(a, b) && LexLess(b, c) ==> LexLess(a, c)
    decreases |a| + |b| + |c|
  {
    if a != [] && b != [] {
      LexIsStrictTotal(a[1..], b[1..], if c != [] then c[1..] else c);
      assert a == [a[0]] + a[1..] && b == [b[0]] + b[1..];
    } else if a != [] {
      LexIsStrictTotal(a[1..], b, c);
    }
  }

  function CodePoints(s: string): seq<int> {
    seq(|s|, i requires 0 <= i < |s| => s[i] as int)
  }

  // Go's order on strings.
  predicate Below(a: string, b: string) {
    LexLess(CodePoints(a), CodePoints(b))
  }

  lemma BelowIsStrictTotal(a: string, b: string, c: string)
    ensures !Below(a, a)
    ensures Below(a, b) ==> !Below(b, a)
    ensures a == b || Below(a, b) || Below(b, a)
    ensures Below(a, b) && Below(b, c) ==> Below(a, c)
  {
    LexIsStrictTotal(CodePoints(a), CodePoints(b), CodePoints(c));
    if CodePoints(a) == CodePoints(b) {
      SameCodePoints(a, b);
    }
  }

  lemma SameCodePoints(a: string, b: string)
    requires CodePoints(a) == CodePoints(b)
    ensures a == b
  {
    assert |CodePoints(a)| == |CodePoints(b)|;
    forall i | 0 <= i < |a|
      ensures a[i] == b[i]
    {
      assert CodePoints(a)[i] == CodePoints(b)[i];
    }
  }
}
