// What the parser accepts, in the terms of RFC 8259: the number grammar (section 6), blanks between the tokens
// (section 2), the members of an object (section 4) and the escapes of a string (section 7).
module JcsGrammar {
  import opened Wrappers
  import opened Jcs
  import opened JcsParser
  import JcsLaws

  // ---- numbers

  predicate AllDigits(s: string) {
    forall i :: 0 <= i < |s| ==> '0' <= s[i] <= '9'
  }

  predicate Whole(s: string) {
    s == "0" || (s != "" && AllDigits(s) && s[0] != '0')
  }

  predicate Fraction(s: string) {
    s == "" || (|s| >= 2 && s[0] == '.' && AllDigits(s[1..]))
  }

  predicate Exponent(s: string) {
    s == "" ||
    ((s[0] == 'e' || s[0] == 'E') &&
     var n := if |s| > 1 && (s[1] == '+' || s[1] == '-') then 2 else 1;
     |s| > n && AllDigits(s[n..]))
  }

  // number = [ minus ] int [ frac ] [ exp ]
  ghost predicate Composed(s: string, minus: string, whole: string, frac: string, exp: string) {
    s == minus + (whole + (frac + exp)) && (minus == "" || minus == "-") && Whole(whole) && Fraction(frac) && Exponent(exp)
  }

  lemma {:induction false} DigitsMean(s: string, n: nat)
    ensures Digits(s) == n <==> n <= |s| && AllDigits(s[..n]) && (n < |s| ==> !('0' <= s[n] <= '9'))
  {
    if s != "" && IsDigit(s[0]) {
      if 0 < n <= |s| {
        DigitsMean(s[1..], n - 1);
        assert s[1..][..n - 1] == s[..n][1..];
        assert AllDigits(s[..n]) <==> AllDigits(s[1..][..n - 1]) by {
          assert s[..n] == [s[0]] + s[1..][..n - 1];
        }
      }
    } else if n > 0 && n <= |s| {
      assert s[..n][0] == s[0];
    }
  }

  lemma ExponentMeans(s: string)
    ensures IsExponent(s) <==> Exponent(s)
  {
    if s != "" {
      var n := if |s| > 1 && (s[1] == '+' || s[1] == '-') then 2 else 1;
      DigitsMean(s[n..], |s| - n);
      assert s[n..][..|s| - n] == s[n..];
    }
  }

  // The fraction ends where its digits do, as what follows does not begin with one.
  lemma FractionMeans(s: string, frac: string, exp: string)
    requires s == frac + exp && Fraction(frac) && Exponent(exp)
    ensures IsFraction(s)
  {
    ExponentMeans(exp);
    if frac == "" {
      assert s == exp;
    } else {
      var n := |frac| - 1;
      assert s[1..] == frac[1..] + exp;
      assert s[1..][..n] == frac[1..];
      DigitsMean(s[1..], n);
      assert s[1 + n..] == exp;
    }
  }

  lemma FractionSplits(s: string) returns (frac: string, exp: string)
    requires IsFraction(s)
    ensures s == frac + exp && Fraction(frac) && Exponent(exp)
  {
    ExponentMeans(s);
    if IsExponent(s) {
      frac, exp := "", s;
    } else {
      var n := Digits(s[1..]);
      frac, exp := s[..n + 1], s[n + 1..];
      FractionPart(s, n);
      ExponentMeans(exp);
    }
  }

  lemma FractionPart(s: string, n: nat)
    requires s != "" && s[0] == '.' && Digits(s[1..]) == n > 0
    ensures Fraction(s[..n + 1])
  {
    DigitsMean(s[1..], n);
    assert s[..n + 1][1..] == s[1..][..n];
  }

  // A text is a number exactly when it is composed as the standard says.
  lemma NumberMeans(s: string)
    ensures IsNumber(s) <==> exists minus, whole, frac, exp :: Composed(s, minus, whole, frac, exp)
  {
    if IsNumber(s) {
      var minus, whole, frac, exp := NumberSplits(s);
    }
    if minus, whole, frac, exp :| Composed(s, minus, whole, frac, exp) {
      ComposedIsNumber(s, minus, whole, frac, exp);
    }
  }

  lemma NumberSplits(s: string) returns (minus: string, whole: string, frac: string, exp: string)
    requires IsNumber(s)
    ensures Composed(s, minus, whole, frac, exp)
  {
    minus := if s[0] == '-' then "-" else "";
    var t := s[|minus|..];
    assert s == minus + t;
    whole, frac, exp := UnsignedSplits(t);
  }

  lemma UnsignedSplits(t: string) returns (whole: string, frac: string, exp: string)
    requires Digits(t) > 0 && (t[0] == '0' ==> Digits(t) == 1) && IsFraction(t[Digits(t)..])
    ensures t == whole + (frac + exp) && Whole(whole) && Fraction(frac) && Exponent(exp)
  {
    whole := t[..Digits(t)];
    assert Whole(whole) by {
      WholeSplits(t, Digits(t));
    }
    frac, exp := FractionSplits(t[Digits(t)..]);
    CutAt(t, Digits(t), frac + exp);
  }

  lemma CutAt(t: string, n: nat, rest: string)
    requires n <= |t| && t[n..] == rest
    ensures t == t[..n] + rest
  {
  }

  lemma WholeSplits(t: string, n: nat)
    requires Digits(t) == n > 0 && (t[0] == '0' ==> n == 1)
    ensures Whole(t[..n])
  {
    DigitsMean(t, n);
    assert t[..n][0] == t[0];
    assert t[0] == '0' ==> t[..n] == "0";
  }

  lemma ComposedIsNumber(s: string, minus: string, whole: string, frac: string, exp: string)
    requires Composed(s, minus, whole, frac, exp)
    ensures IsNumber(s)
  {
    var t := whole + (frac + exp);
    assert s == minus + t && whole[0] == t[0];
    assert s[|minus|..] == t;
    assert t[|whole|..] == frac + exp && t[..|whole|] == whole;
    DigitsMean(t, |whole|);
    FractionMeans(frac + exp, frac, exp);
  }

  lemma {:induction false} RunIs(s: string, n: nat)
    requires n == NumberRun(s)
    ensures n < |s| ==> !IsNumberChar(s[n])
  {
    if s != "" && IsNumberChar(s[0]) {
      RunIs(s[1..], n - 1);
    }
  }

  // Where a number stands, the longest run of number characters has to be one, and it is kept as written.
  lemma ScalarMeans(s: string, t: string, rest: string)
    ensures ParseScalar(s) == Some((Num(t), rest)) <==>
      s == t + rest && IsNumber(t) && (rest == "" || !IsNumberChar(rest[0]))
  {
    if ParseScalar(s) == Some((Num(t), rest)) {
      var n := NumberRun(s);
      RunIs(s, n);
      CutAt(s, n, rest);
    }
    if s == t + rest && IsNumber(t) && (rest == "" || !IsNumberChar(rest[0])) {
      NumberReads(t, rest);
    }
  }

  lemma NumberReads(t: string, rest: string)
    requires IsNumber(t) && (rest == "" || !IsNumberChar(rest[0]))
    ensures ParseScalar(t + rest) == Some((Num(t), rest))
  {
    var s := t + rest;
    JcsLaws.NumberChars(t);
    JcsLaws.RunStops(t, rest);
    assert s[..|t|] == t && s[|t|..] == rest;
    assert s[0] == t[0] && "true"[0] == 't' && "false"[0] == 'f' && "null"[0] == 'n';
  }

  // Nothing else but the three literals is a scalar.
  lemma LiteralsMean(s: string, v: Json, rest: string)
    requires v == Null || v == Bool(true) || v == Bool(false)
    ensures ParseScalar(s) == Some((v, rest)) <==>
      s == (if v == Null then "null" else if v == Bool(true) then "true" else "false") + rest
  {
    if "true" <= s {
      assert s == "true" + s[4..] && s[0] == 't';
    } else if "false" <= s {
      assert s == "false" + s[5..] && s[0] == 'f';
    } else if "null" <= s {
      assert s == "null" + s[4..];
    }
    var word := if v == Null then "null" else if v == Bool(true) then "true" else "false";
    if s == word + rest {
      assert s[0] == word[0] && s[|word|..] == rest && word <= s;
    }
  }

  // ---- blanks

  ghost predicate Blanks(b: string) {
    forall i :: 0 <= i < |b| ==> b[i] in {' ', '\t', '\n', '\r'}
  }

  lemma {:induction false} BlanksSkip(b: string, s: string)
    requires Blanks(b)
    ensures SkipBlanks(b + s) == SkipBlanks(s)
  {
    if b == "" {
      assert b + s == s;
    } else {
      assert (b + s)[1..] == b[1..] + s;
      BlanksSkip(b[1..], s);
    }
  }

  lemma StopsAt(s: string)
    requires s != "" && s[0] !in {' ', '\t', '\n', '\r'}
    ensures SkipBlanks(s) == s
  {
  }

  // Blanks before a value, a key, a colon, a comma or a closing bracket, and after the document, do not matter.
  lemma BlanksAreFree(b: string, s: string, obj: map<string, Json>, elems: seq<Json>)
    requires Blanks(b)
    ensures ParseValue(b + s) == ParseValue(s) && ParseKey(b + s) == ParseKey(s)
    ensures ParseMembers(b + s, obj) == ParseMembers(s, obj) && ParseElements(b + s, elems) == ParseElements(s, elems)
    ensures ParseStrict(b + s) == ParseStrict(s)
  {
    BlanksSkip(b, s);
  }

  lemma ElementThen(s: string, v: Json, b: string, rest: string, elems: seq<Json>)
    requires Blanks(b) && (ParseValue(s) == Some((v, b + ("," + rest))) || ParseValue(s) == Some((v, b + ("]" + rest))))
    ensures ParseValue(s) == Some((v, b + ("," + rest))) ==> ParseElements(s, elems) == ParseElements(rest, elems + [v])
    ensures ParseValue(s) == Some((v, b + ("]" + rest))) ==> ParseElements(s, elems) == Some((Arr(elems + [v]), rest))
  {
    BlanksSkip(b, "," + rest);
    BlanksSkip(b, "]" + rest);
    StopsAt("," + rest);
    StopsAt("]" + rest);
    assert ("," + rest)[1..] == rest && ("]" + rest)[1..] == rest;
  }

  lemma KeyThen(s: string, key: string, b: string, rest: string)
    requires Blanks(b) && s != "" && s[0] == '"' && ParseStringBody(s[1..]) == Some((key, b + (":" + rest)))
    ensures ParseKey(s) == Some((key, rest))
  {
    BlanksSkip(b, ":" + rest);
    StopsAt(":" + rest);
    StopsAt(s);
    assert (":" + rest)[1..] == rest;
  }

  // A member joins those read before, unless its key is one of theirs: then the whole text is refused.
  lemma MemberThen(s: string, key: string, text: string, v: Json, b: string, rest: string, obj: map<string, Json>)
    requires Blanks(b) && ParseKey(s) == Some((key, text))
    requires ParseValue(text) == Some((v, b + ("," + rest))) || ParseValue(text) == Some((v, b + ("}" + rest)))
    ensures key in obj ==> ParseMembers(s, obj).None?
    ensures key !in obj && ParseValue(text) == Some((v, b + ("," + rest))) ==>
      ParseMembers(s, obj) == ParseMembers(rest, obj[key := v])
    ensures key !in obj && ParseValue(text) == Some((v, b + ("}" + rest))) ==>
      ParseMembers(s, obj) == Some((Obj(obj[key := v]), rest))
  {
    BlanksSkip(b, "," + rest);
    BlanksSkip(b, "}" + rest);
    StopsAt("," + rest);
    StopsAt("}" + rest);
    assert ("," + rest)[1..] == rest && ("}" + rest)[1..] == rest;
  }

  // An object that names a member twice is refused, whatever the two values are.
  lemma RepeatedKeyIsRefused(key: string, v: Json, first: string, rest: string)
    requires ParseValue(first) == Some((v, "," + (SerString(key) + (":" + rest))))
    ensures ParseValue("{" + (SerString(key) + (":" + first))).None?
  {
    var tail := SerString(key) + (":" + rest);
    var s := SerString(key) + (":" + first);
    KeyReads(key, first);
    KeyReads(key, rest);
    assert "" + ("," + tail) == "," + tail;
    MemberThen(s, key, first, v, "", tail, map[]);
    assert ParseMembers(tail, map[key := v]).None?;
    var all := "{" + s;
    assert all[0] == '{' && all[1..] == s && s[0] == '"';
    StopsAt(all);
    StopsAt(s);
  }

  lemma KeyReads(key: string, rest: string)
    ensures ParseKey(SerString(key) + (":" + rest)) == Some((key, rest))
  {
    var s := SerString(key) + (":" + rest);
    JcsLaws.ReadsString(key, ":" + rest);
    assert s[0] == '"';
    assert s[1..] == Escape(key) + "\"" + (":" + rest);
    assert "" + (":" + rest) == ":" + rest;
    KeyThen(s, key, "", rest);
  }

  // ---- escapes

  const LOWER := "0123456789abcdef"
  const UPPER := "0123456789ABCDEF"

  lemma HexValueMeans(c: char, n: int)
    requires 0 <= n < 16
    ensures HexValue(c) == n <==> c == LOWER[n] || c == UPPER[n]
  {
  }

  // \uXXXX with these four digits, in either case.
  predicate Spells(s: string, n: int)
    requires 0 <= n < 0x10000
  {
    && |s| >= 6 && s[0] == '\\' && s[1] == 'u'
    && (s[2] == LOWER[n / 0x1000] || s[2] == UPPER[n / 0x1000])
    && (s[3] == LOWER[n / 0x100 % 16] || s[3] == UPPER[n / 0x100 % 16])
    && (s[4] == LOWER[n / 16 % 16] || s[4] == UPPER[n / 16 % 16])
    && (s[5] == LOWER[n % 16] || s[5] == UPPER[n % 16])
  }

  lemma SpelledIs(s: string, n: int)
    requires 0 <= n < 0x10000 && Spells(s, n)
    ensures Hex4(s[2..]) == n
  {
    HexValueMeans(s[2], n / 0x1000);
    HexValueMeans(s[3], n / 0x100 % 16);
    HexValueMeans(s[4], n / 16 % 16);
    HexValueMeans(s[5], n % 16);
    FourDigits(n);
    var h := s[2..];
    assert h[0] == s[2] && h[1] == s[3] && h[2] == s[4] && h[3] == s[5];
  }

  lemma FourDigits(n: int)
    requires 0 <= n < 0x10000
    ensures ((n / 0x1000 * 16 + n / 0x100 % 16) * 16 + n / 16 % 16) * 16 + n % 16 == n
  {
  }

  // A character of the basic plane may be written as one such escape, any other as the two of its UTF-16 units.
  lemma UnitsRead(c: char, s: string)
    requires c as int < 0x10000 ==> Spells(s, c as int)
    requires c as int >= 0x10000 ==> Spells(s, Utf16([c])[0]) && |s| >= 12 && Spells(s[6..], Utf16([c])[1])
    ensures DecodeEscape(s) == Some((c, if c as int < 0x10000 then 6 else 12))
  {
    if c as int < 0x10000 {
      SpelledIs(s, c as int);
    } else {
      SpelledIs(s, Utf16([c])[0]);
      SpelledIs(s[6..], Utf16([c])[1]);
      assert s[6..][2..] == s[8..];
    }
  }

  // The short escapes, of which the solidus has one that is never written.
  lemma ShortEscapes(rest: string)
    ensures DecodeEscape("\\/" + rest) == Some(('/', 2)) && DecodeEscape("\\\"" + rest) == Some(('"', 2))
    ensures DecodeEscape("\\\\" + rest) == Some(('\\', 2)) && DecodeEscape("\\b" + rest) == Some(('\U{8}', 2))
    ensures DecodeEscape("\\f" + rest) == Some(('\U{C}', 2)) && DecodeEscape("\\n" + rest) == Some(('\n', 2))
    ensures DecodeEscape("\\r" + rest) == Some(('\r', 2)) && DecodeEscape("\\t" + rest) == Some(('\t', 2))
  {
  }
}
