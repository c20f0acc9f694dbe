// What the scanner is for: encoding/json replaces a lone surrogate escape by U+FFFD, and a text that passed
// the scanner holds none. Scanning and then parsing is one strict parser.
module JcsStrict {
  import opened Wrappers
  import opened Jcs
  import opened JcsParser

  // An escaped surrogate without its other half, which the parser would replace.
  predicate LoneSurrogate(s: string) {
    |s| >= 2 && s[1] == 'u' &&
    var cp := Hex4(s[2..]);
    IsLow(cp) || (IsHigh(cp) && !(|s| >= 12 && s[6] == '\\' && s[7] == 'u' && IsLow(Hex4(s[8..]))))
  }

  // ---- the strict parser: the grammar of the parser, with lone surrogates refused

  function StrictBody(s: string): (r: Option<(string, string)>)
    ensures r.Some? ==> |r.value.1| < |s|
    decreases |s|
  {
    if s == "" then None
    else if s[0] == '"' then Some(("", s[1..]))
    else if s[0] < ' ' then None
    else if s[0] == '\\' then
      if LoneSurrogate(s) then None
      else
        match DecodeEscape(s)
        case None => None
        case Some((c, n)) => Prepend(c, StrictBody(s[n..]))
    else Prepend(s[0], StrictBody(s[1..]))
  }

  function StrictValue(s: string): (r: Option<(Json, string)>)
    ensures r.Some? ==> |r.value.1| < |s|
    decreases |s|, 0
  {
    var t := SkipBlanks(s);
    if t == "" then None
    else if t[0] == '{' then
      var u := SkipBlanks(t[1..]);
      if u != "" && u[0] == '}' then Some((Obj(map[]), u[1..])) else StrictMembers(t[1..], map[])
    else if t[0] == '[' then
      var u := SkipBlanks(t[1..]);
      if u != "" && u[0] == ']' then Some((Arr([]), u[1..])) else StrictElements(t[1..], [])
    else if t[0] == '"' then
      match StrictBody(t[1..])
      case None => None
      case Some((str, rest)) => Some((Str(str), rest))
    else ParseScalar(t)
  }

  function StrictMembers(s: string, obj: map<string, Json>): (r: Option<(Json, string)>)
    ensures r.Some? ==> |r.value.1| < |s|
    decreases |s|, 1
  {
    match StrictKey(s)
    case None => None
    case Some((key, rest)) =>
      if key in obj then None
      else
        match StrictValue(rest)
        case None => None
        case Some((v, after)) =>
          var next := SkipBlanks(after);
          if next != "" && next[0] == ',' then StrictMembers(next[1..], obj[key := v])
          else if next != "" && next[0] == '}' then Some((Obj(obj[key := v]), next[1..]))
          else None
  }

  function StrictKey(s: string): (r: Option<(string, string)>)
    ensures r.Some? ==> |r.value.1| < |s|
  {
    var t := SkipBlanks(s);
    if t == "" || t[0] != '"' then None
    else
      match StrictBody(t[1..])
      case None => None
      case Some((key, rest)) =>
        var colon := SkipBlanks(rest);
        if colon != "" && colon[0] == ':' then Some((key, colon[1..])) else None
  }

  function StrictElements(s: string, elems: seq<Json>): (r: Option<(Json, string)>)
    ensures r.Some? ==> |r.value.1| < |s|
    decreases |s|, 1
  {
    match StrictValue(s)
    case None => None
    case Some((v, after)) =>
      var next := SkipBlanks(after);
      if next != "" && next[0] == ',' then StrictElements(next[1..], elems + [v])
      else if next != "" && next[0] == ']' then Some((Arr(elems + [v]), next[1..]))
      else None
  }

  function StrictDocument(s: string): Option<Json> {
    match StrictValue(s)
    case None => None
    case Some((v, rest)) => if SkipBlanks(rest) == "" then Some(v) else None
  }

  // ---- the scanner keeps step with the parser

  // The scanner passes exactly the escapes that are no lone surrogate, and measures them as the parser does.
  lemma EscapeAgrees(s: string)
    requires s != "" && s[0] == '\\'
    ensures EscapeLength(s) > 0 <==> DecodeEscape(s).Some? && !LoneSurrogate(s)
    ensures EscapeLength(s) > 0 ==> DecodeEscape(s).value.1 == EscapeLength(s)
  {
  }

  // How a piece of text that the scanner enters in one state and the parser reads relate: scanned text is
  // read alike by both parsers, and text read by the strict one scans iff what follows it does.
  ghost predicate InStep<T(!new)>(scanned: bool, parsed: Option<(T, string)>, strict: Option<(T, string)>) {
    && (scanned ==> parsed == strict)
    && (strict.Some? ==> parsed == strict && (scanned <==> Scans(strict.value.1, false)))
  }

  lemma {:induction false} BodyAgrees(s: string)
    ensures InStep(Scans(s, true), ParseStringBody(s), StrictBody(s))
    decreases |s|
  {
    if s != "" && s[0] != '"' && s[0] >= ' ' {
      if s[0] == '\\' {
        EscapeAgrees(s);
        if EscapeLength(s) > 0 {
          BodyAgrees(s[EscapeLength(s)..]);
        }
      } else {
        BodyAgrees(s[1..]);
      }
    }
  }

  lemma {:induction false} BlanksScan(s: string)
    ensures Scans(SkipBlanks(s), false) == Scans(s, false)
  {
    if s != "" && IsBlank(s[0]) {
      BlanksScan(s[1..]);
    }
  }

  lemma {:induction false} PlainScan(s: string, n: nat)
    requires n <= |s| && forall i :: 0 <= i < n ==> s[i] != '"'
    ensures Scans(s[n..], false) == Scans(s, false)
  {
    if n > 0 {
      PlainScan(s[1..], n - 1);
      assert s[1..][n - 1..] == s[n..];
    }
  }

  lemma ScalarAgrees(s: string)
    ensures InStep(Scans(s, false), ParseScalar(s), ParseScalar(s))
  {
    if "true" <= s {
      assert s[..4] == "true";
      PlainScan(s, 4);
    } else if "false" <= s {
      PlainScan(s, 5);
    } else if "null" <= s {
      PlainScan(s, 4);
    } else {
      PlainScan(s, NumberRun(s));
    }
  }

  lemma KeyAgrees(s: string)
    ensures InStep(Scans(s, false), ParseKey(s), StrictKey(s))
  {
    var t := SkipBlanks(s);
    BlanksScan(s);
    if t != "" && t[0] == '"' {
      BodyAgrees(t[1..]);
      if StrictBody(t[1..]).Some? {
        BlanksScan(StrictBody(t[1..]).value.1);
      }
    }
  }

  lemma {:induction false} ValueAgrees(s: string)
    ensures InStep(Scans(s, false), ParseValue(s), StrictValue(s))
    decreases |s|, 0
  {
    var t := SkipBlanks(s);
    BlanksScan(s);
    if t == "" {
    } else if t[0] == '{' {
      BlanksScan(t[1..]);
      MembersAgree(t[1..], map[]);
    } else if t[0] == '[' {
      BlanksScan(t[1..]);
      ElementsAgree(t[1..], []);
    } else if t[0] == '"' {
      BodyAgrees(t[1..]);
    } else {
      ScalarAgrees(t);
    }
  }

  lemma {:induction false} MembersAgree(s: string, obj: map<string, Json>)
    ensures InStep(Scans(s, false), ParseMembers(s, obj), StrictMembers(s, obj))
    decreases |s|, 1
  {
    KeyAgrees(s);
    if StrictKey(s).Some? {
      var (key, rest) := StrictKey(s).value;
      ValueAgrees(rest);
      if key !in obj && StrictValue(rest).Some? {
        var (v, after) := StrictValue(rest).value;
        BlanksScan(after);
        var next := SkipBlanks(after);
        if next != "" {
          MembersAgree(next[1..], obj[key := v]);
        }
      }
    }
  }

  lemma {:induction false} ElementsAgree(s: string, elems: seq<Json>)
    ensures InStep(Scans(s, false), ParseElements(s, elems), StrictElements(s, elems))
    decreases |s|, 1
  {
    ValueAgrees(s);
    if StrictValue(s).Some? {
      var (v, after) := StrictValue(s).value;
      BlanksScan(after);
      var next := SkipBlanks(after);
      if next != "" {
        ElementsAgree(next[1..], elems + [v]);
      }
    }
  }

  // Scanning and then parsing is the strict parser: on text the scanner accepts no lone surrogate is ever
  // replaced, and every text that reads without replacing one passes the scanner.
  lemma ScanThenParseIsStrict(s: string)
    ensures (if Scans(s, false) then ParseStrict(s) else None) == StrictDocument(s)
  {
    ValueAgrees(s);
    if StrictValue(s).Some? {
      BlanksScan(StrictValue(s).value.1);
    }
  }

  // So the input has a canonical form iff it reads strictly and all its numbers have one.
  lemma CanonicalIsStrict(nf: Numbers, s: string)
    ensures Canonical(nf, s).Some? <==> StrictDocument(s).Some? && Representable(nf, StrictDocument(s).value)
    ensures Canonical(nf, s).Some? ==> Canonical(nf, s) == Some(Ser(nf, StrictDocument(s).value))
  {
    ScanThenParseIsStrict(s);
  }

  // Without the scanner the two differ: a lone surrogate reads as U+FFFD.
  lemma LoneSurrogateIsReplaced()
    ensures var s := "\"\\ud800\"";
      ParseStrict(s) == Some(Str("\U{FFFD}")) && StrictDocument(s) == None
  {
    var s := "\"\\ud800\"";
    assert s[1..] == "\\ud800\"" && s[1..][2..] == "d800\"" && s[1..][6..] == "\"";
    assert Hex4("d800\"") == 0xD800;
    assert SkipBlanks(s) == s;
    assert ParseStringBody("\"") == Some(("", ""));
    assert DecodeEscape(s[1..]) == Some(('\U{FFFD}', 6));
    assert ParseStringBody(s[1..]) == Prepend('\U{FFFD}', ParseStringBody("\""));
    assert ['\U{FFFD}'] + "" == "\U{FFFD}";
  }
}
