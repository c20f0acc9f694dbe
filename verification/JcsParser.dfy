// Strict JSON parsing with the duplicate-key rule (pkg/jcs/canonical.go parseStrict on encoding/json tokens).
module JcsParser {
  import opened Wrappers
  import opened Jcs

  predicate IsBlank(c: char) {
    c == ' ' || c == '\t' || c == '\n' || c == '\r'
  }

  function SkipBlanks(s: string): (r: string)
    ensures |r| <= |s| && (r != "" ==> !IsBlank(r[0]))
  {
    if s != "" && IsBlank(s[0]) then SkipBlanks(s[1..]) else s
  }

  function SimpleEscape(c: char): char {
    match c
    case 'b' => '\U{8}'
    case 'f' => '\U{C}'
    case 'n' => '\n'
    case 'r' => '\r'
    case 't' => '\t'
    case _ => c
  }

  // The character an escape stands for and the escape's length; a surrogate without its other half reads as
  // U+FFFD.
  function DecodeEscape(s: string): (r: Option<(char, nat)>)
    ensures r.Some? ==> 0 < r.value.1 <= |s|
  {
    if |s| < 2 then None
    else if IsSimpleEscape(s[1]) then Some((SimpleEscape(s[1]), 2))
    else if s[1] != 'u' then None
    else
      var cp := Hex4(s[2..]);
      if cp < 0 then None
      else if !IsHigh(cp) && !IsLow(cp) then Some((cp as char, 6))
      else if IsHigh(cp) && |s| >= 12 && s[6] == '\\' && s[7] == 'u' && IsLow(Hex4(s[8..])) then
        Some(((0x10000 + (cp - 0xD800) * 0x400 + (Hex4(s[8..]) - 0xDC00)) as char, 12))
      else Some(('\U{FFFD}', 6))
  }

  // A string after its opening quote: its value and what follows the closing quote.
  function ParseStringBody(s: string): (r: Option<(string, string)>)
    ensures r.Some? ==> |r.value.1| < |s|
    decreases |s|
  {
    if s == "" then None
    else if s[0] == '"' then Some(("", s[1..]))
    else if s[0] < ' ' then None
    else if s[0] == '\\' then
      match DecodeEscape(s)
      case None => None
      case Some((c, n)) => Prepend(c, ParseStringBody(s[n..]))
    else Prepend(s[0], ParseStringBody(s[1..]))
  }

  function Prepend(c: char, r: Option<(string, string)>): Option<(string, string)> {
    match r
    case None => None
    case Some((str, rest)) => Some(([c] + str, rest))
  }

  function ParseScalar(s: string): (r: Option<(Json, string)>)
    ensures r.Some? ==> |r.value.1| < |s|
  {
    if "true" <= s then Some((Bool(true), s[4..]))
    else if "false" <= s then Some((Bool(false), s[5..]))
    else if "null" <= s then Some((Null, s[4..]))
    else
      var n := NumberRun(s);
      if n > 0 && IsNumber(s[..n]) then Some((Num(s[..n]), s[n..])) else None
  }

  function ParseValue(s: string): (r: Option<(Json, string)>)
    ensures r.Some? ==> |r.value.1| < |s|
    decreases |s|, 0
  {
    var t := SkipBlanks(s);
    if t == "" then None
    else if t[0] == '{' then
      var u := SkipBlanks(t[1..]);
      if u != "" && u[0] == '}' then Some((Obj(map[]), u[1..])) else ParseMembers(t[1..], map[])
    else if t[0] == '[' then
      var u := SkipBlanks(t[1..]);
      if u != "" && u[0] == ']' then Some((Arr([]), u[1..])) else ParseElements(t[1..], [])
    else if t[0] == '"' then
      match ParseStringBody(t[1..])
      case None => None
      case Some((str, rest)) => Some((Str(str), rest))
    else ParseScalar(t)
  }

  // The members from here to the closing brace, added to those already read; a repeated key is refused.
  function ParseMembers(s: string, obj: map<string, Json>): (r: Option<(Json, string)>)
    ensures r.Some? ==> |r.value.1| < |s|
    decreases |s|, 1
  {
    match ParseKey(s)
    case None => None
    case Some((key, rest)) =>
      if key in obj then None
      else
        match ParseValue(rest)
        case None => None
        case Some((v, after)) =>
          var next := SkipBlanks(after);
          if next != "" && next[0] == ',' then ParseMembers(next[1..], obj[key := v])
          else if next != "" && next[0] == '}' then Some((Obj(obj[key := v]), next[1..]))
          else None
  }

  // A key and its colon.
  function ParseKey(s: string): (r: Option<(string, string)>)
    ensures r.Some? ==> |r.value.1| < |s|
  {
    var t := SkipBlanks(s);
    if t == "" || t[0] != '"' then None
    else
      match ParseStringBody(t[1..])
      case None => None
      case Some((key, rest)) =>
        var colon := SkipBlanks(rest);
        if colon != "" && colon[0] == ':' then Some((key, colon[1..])) else None
  }

  function ParseElements(s: string, elems: seq<Json>): (r: Option<(Json, string)>)
    ensures r.Some? ==> |r.value.1| < |s|
    decreases |s|, 1
  {
    match ParseValue(s)
    case None => None
    case Some((v, after)) =>
      var next := SkipBlanks(after);
      if next != "" && next[0] == ',' then ParseElements(next[1..], elems + [v])
      else if next != "" && next[0] == ']' then Some((Arr(elems + [v]), next[1..]))
      else None
  }

  // One value and nothing but blanks after it.
  function ParseStrict(s: string): Option<Json> {
    match ParseValue(s)
    case None => None
    case Some((v, rest)) => if SkipBlanks(rest) == "" then Some(v) else None
  }

  // The decoder reads its input once, from the front.
  class Decoder {
    var rest: string

    constructor (input: string)
      ensures rest == input
    {
      rest := input;
    }

    ghost predicate Agrees(spec: Option<(Json, string)>, r: Option<Json>)
      reads this
    {
      match spec
      case None => r.None?
      case Some((v, after)) => r == Some(v) && rest == after
    }

    method ParseNext() returns (r: Option<Json>)
      modifies this
      ensures Agrees(ParseValue(old(rest)), r)
      decreases |rest|, 0
    {
      rest := SkipBlanks(rest);
      if rest == "" {
        return None;
      }
      var c := rest[0];
      if c == '{' {
        rest := rest[1..];
        r := ParseObject();
      } else if c == '[' {
        rest := rest[1..];
        r := ParseArray();
      } else if c == '"' {
        var str := ParseStringBody(rest[1..]);
        if str.None? {
          return None;
        }
        rest := str.value.1;
        return Some(Str(str.value.0));
      } else {
        var scalar := ParseScalar(rest);
        if scalar.None? {
          return None;
        }
        rest := scalar.value.1;
        return Some(scalar.value.0);
      }
    }

    // Whether another element precedes the closing bracket or brace.
    method More() returns (more: bool)
      modifies this
      ensures rest == SkipBlanks(old(rest))
      ensures more <==> rest != "" && rest[0] != ']' && rest[0] != '}'
    {
      rest := SkipBlanks(rest);
      return rest != "" && rest[0] != ']' && rest[0] != '}';
    }

    method ParseObject() returns (r: Option<Json>)
      modifies this
      ensures var u := SkipBlanks(old(rest));
        Agrees(if u != "" && u[0] == '}' then Some((Obj(map[]), u[1..])) else ParseMembers(old(rest), map[]), r)
      decreases |rest|, 1
    {
      ghost var input := rest;
      var obj: map<string, Json> := map[];
      var more := More();
      if !more {
        if rest != "" && rest[0] == '}' {
          rest := rest[1..];
          return Some(Obj(map[]));
        }
        return None;
      }
      SkipTwice(input);
      while true
        invariant |rest| <= |input|
        invariant ParseMembers(input, map[]) == ParseMembers(rest, obj)
        decreases |rest|
      {
        var key := ParseKey(rest);
        if key.None? {
          return None;
        }
        if key.value.0 in obj {
          return None;
        }
        rest := key.value.1;
        var val := ParseNext();
        if val.None? {
          return None;
        }
        rest := SkipBlanks(rest);
        obj := obj[key.value.0 := val.value];
        if rest != "" && rest[0] == ',' {
          rest := rest[1..];
        } else if rest != "" && rest[0] == '}' {
          rest := rest[1..];
          return Some(Obj(obj));
        } else {
          return None;
        }
      }
    }

    method ParseArray() returns (r: Option<Json>)
      modifies this
      ensures var u := SkipBlanks(old(rest));
        Agrees(if u != "" && u[0] == ']' then Some((Arr([]), u[1..])) else ParseElements(old(rest), []), r)
      decreases |rest|, 1
    {
      ghost var input := rest;
      var arr: seq<Json> := [];
      var more := More();
      SkipTwice(input);
      if !more {
        if rest != "" && rest[0] == ']' {
          rest := rest[1..];
          return Some(Arr([]));
        }
        return None;
      }
      while true
        invariant |rest| <= |input|
        invariant ParseElements(input, []) == ParseElements(rest, arr)
        decreases |rest|
      {
        var val := ParseNext();
        if val.None? {
          return None;
        }
        rest := SkipBlanks(rest);
        arr := arr + [val.value];
        if rest != "" && rest[0] == ',' {
          rest := rest[1..];
        } else if rest != "" && rest[0] == ']' {
          rest := rest[1..];
          return Some(Arr(arr));
        } else {
          return None;
        }
      }
    }
  }

  // Blanks before a value or key are skipped anyway.
  lemma SkipTwice(s: string)
    ensures SkipBlanks(SkipBlanks(s)) == SkipBlanks(s)
    ensures ParseValue(s) == ParseValue(SkipBlanks(s)) && ParseKey(s) == ParseKey(SkipBlanks(s))
    ensures ParseMembers(s, map[]) == ParseMembers(SkipBlanks(s), map[])
    ensures ParseElements(s, []) == ParseElements(SkipBlanks(s), [])
  {
  }

  // Canonicalize: scan, parse, serialize.
  ghost function Canonical(nf: Numbers, input: string): Option<string> {
    if !Scans(input, false) then None
    else
      match ParseStrict(input)
      case None => None
      case Some(v) => if Representable(nf, v) then Some(Ser(nf, v)) else None
  }

  method Canonicalize(nf: Numbers, input: string) returns (r: Option<string>)
    ensures r == Canonical(nf, input)
  {
    var scanned := CheckUnicodeAndSurrogates(input);
    if !scanned {
      return None;
    }
    var dec := new Decoder(input);
    var v := dec.ParseNext();
    if v.None? || SkipBlanks(dec.rest) != "" {
      return None;
    }
    var buf := new Buffer();
    var ok := SerializeCanonical(nf, v.value, buf);
    if !ok {
      return None;
    }
    assert "" + Ser(nf, v.value) == Ser(nf, v.value);
    return Some(buf.data);
  }
}
