// What canonical JSON is for: the round trip, one text per value, and a form that is its own canonical form
// (sections 3.2.2.2 and 3.2.3 of RFC 8785, section 2.3 of RFC 7493).
module JcsLaws {
  import opened Wrappers
  import opened Jcs
  import opened JcsParser

  // The value with every number written canonically.
  function Norm(nf: Numbers, v: Json): Json
    decreases v
  {
    match v
    case Num(t) => if nf.canon(t).Some? then Num(nf.canon(t).value) else v
    case Arr(es) => Arr(seq(|es|, i requires 0 <= i < |es| => Norm(nf, es[i])))
    case Obj(m) => Obj(map k | k in m :: Norm(nf, m[k]))
    case _ => v
  }

  // ---- tokens

  lemma ExponentChars(s: string)
    requires IsExponent(s)
    ensures forall i :: 0 <= i < |s| ==> IsNumberChar(s[i])
  {
    if s != "" {
      var t := if |s| > 1 && (s[1] == '+' || s[1] == '-') then s[2..] else s[1..];
      var skip := |s| - |t|;
      forall i | 0 <= i < |s|
        ensures IsNumberChar(s[i])
      {
        if i >= skip {
          assert s[i] == t[i - skip];
        }
      }
    }
  }

  lemma FractionChars(s: string)
    requires IsFraction(s)
    ensures forall i :: 0 <= i < |s| ==> IsNumberChar(s[i])
  {
    if IsExponent(s) {
      ExponentChars(s);
    } else {
      var t := s[1..];
      var n := Digits(t);
      ExponentChars(s[1 + n..]);
      forall i | 0 < i < |s|
        ensures IsNumberChar(s[i])
      {
        if i <= n {
          assert s[i] == t[i - 1];
        } else {
          assert s[i] == s[1 + n..][i - 1 - n];
        }
      }
    }
  }

  lemma NumberChars(s: string)
    requires IsNumber(s)
    ensures s != "" && (s[0] == '-' || IsDigit(s[0]))
    ensures forall i :: 0 <= i < |s| ==> IsNumberChar(s[i])
  {
    var t := if s != "" && s[0] == '-' then s[1..] else s;
    var skip := |s| - |t|;
    var n := Digits(t);
    FractionChars(t[n..]);
    TailChars(t, n);
    forall i | skip <= i < |s|
      ensures IsNumberChar(s[i])
    {
      assert s[i] == t[i - skip];
    }
  }

  lemma TailChars(t: string, n: nat)
    requires n <= |t| && forall i :: 0 <= i < n ==> IsNumberChar(t[i])
    requires forall i :: 0 <= i < |t| - n ==> IsNumberChar(t[n..][i])
    ensures forall i :: 0 <= i < |t| ==> IsNumberChar(t[i])
  {
    forall i | n <= i < |t|
      ensures IsNumberChar(t[i])
    {
      assert t[i] == t[n..][i - n];
    }
  }

  // Text that ends the token before it: nothing, or a character no number contains.
  predicate Delimited(tail: string) {
    tail == "" || !IsNumberChar(tail[0])
  }

  lemma {:induction false} RunStops(s: string, tail: string)
    requires Delimited(tail) && forall i :: 0 <= i < |s| ==> IsNumberChar(s[i])
    ensures NumberRun(s + tail) == |s|
  {
    if s == "" {
      assert s + tail == tail;
    } else {
      assert (s + tail)[1..] == s[1..] + tail;
      RunStops(s[1..], tail);
    }
  }

  lemma ParsesNumber(s: string, tail: string)
    requires IsNumber(s) && Delimited(tail)
    ensures ParseValue(s + tail) == Some((Num(s), tail))
  {
    NumberChars(s);
    RunStops(s, tail);
    var all := s + tail;
    assert all[0] == s[0] && all[..|s|] == s && all[|s|..] == tail;
    assert "true"[0] == 't' && "false"[0] == 'f' && "null"[0] == 'n';
    assert SkipBlanks(all) == all;
    assert !("true" <= all) && !("false" <= all) && !("null" <= all);
    assert ParseScalar(all) == Some((Num(s), tail));
  }

  lemma HexDigitsRead(c: char, tail: string)
    requires c < ' '
    ensures Hex4("00" + [HexChar(c as int / 16), HexChar(c as int % 16)] + tail) == c as int
  {
    var s := "00" + [HexChar(c as int / 16), HexChar(c as int % 16)] + tail;
    assert s[0] == '0' && s[1] == '0' && s[2] == HexChar(c as int / 16) && s[3] == HexChar(c as int % 16);
  }

  // One escaped character reads back as itself, and the scanner passes over it.
  lemma ReadsChar(c: char, rest: string)
    ensures ParseStringBody(EscapeChar(c) + rest) == Prepend(c, ParseStringBody(rest))
    ensures Scans(EscapeChar(c) + rest, true) == Scans(rest, true)
  {
    var e := EscapeChar(c);
    var all := e + rest;
    if e == [c] {
      assert all[0] == c && all[1..] == rest;
    } else if |e| == 2 {
      assert all[0] == '\\' && all[1] == e[1] && all[2..] == rest;
      assert SimpleEscape(e[1]) == c;
    } else {
      assert all[0] == '\\' && all[1] == 'u' && all[6..] == rest;
      assert all[2..] == "00" + [HexChar(c as int / 16), HexChar(c as int % 16)] + rest;
      HexDigitsRead(c, rest);
    }
  }

  lemma {:induction false} ReadsString(s: string, tail: string)
    ensures ParseStringBody(Escape(s) + "\"" + tail) == Some((s, tail))
    ensures Scans(Escape(s) + "\"" + tail, true) == Scans(tail, false)
  {
    if s == "" {
      var end := Escape(s) + "\"" + tail;
      assert end == "\"" + tail && end[1..] == tail;
    } else {
      ReadsString(s[1..], tail);
      var rest := Escape(s[1..]) + "\"" + tail;
      Assoc(EscapeChar(s[0]), Escape(s[1..]), "\"");
      Assoc(EscapeChar(s[0]), Escape(s[1..]) + "\"", tail);
      ReadsChar(s[0], rest);
      assert [s[0]] + s[1..] == s;
    }
  }

  // A quoted string at the front is read whole, by parser and scanner.
  lemma ReadsQuoted(s: string, tail: string)
    ensures SerString(s) + tail != "" && (SerString(s) + tail)[0] == '"'
    ensures ParseStringBody((SerString(s) + tail)[1..]) == Some((s, tail))
    ensures Scans(SerString(s) + tail, false) == Scans(tail, false)
  {
    assert (SerString(s) + tail)[1..] == Escape(s) + "\"" + tail;
    ReadsString(s, tail);
  }

  // ---- the round trip

  // A value's text starts with neither a blank nor a closing bracket.
  predicate StartsValue(s: string) {
    s != "" && !IsBlank(s[0]) && s[0] != ']' && s[0] != '}'
  }

  lemma SerStarts(nf: Numbers, v: Json, tail: string)
    requires Lawful(nf) && Representable(nf, v)
    ensures StartsValue(Ser(nf, v) + tail)
  {
    if v.Num? {
      NumberChars(nf.canon(v.text).value);
    }
    assert (Ser(nf, v) + tail)[0] == Ser(nf, v)[0];
  }

  lemma ParsesConstant(nf: Numbers, v: Json, tail: string)
    requires v.Null? || v.Bool?
    ensures ParseValue(Ser(nf, v) + tail) == Some((v, tail))
  {
    var all := Ser(nf, v) + tail;
    assert all[0] == Ser(nf, v)[0] && SkipBlanks(all) == all;
    assert all[|Ser(nf, v)|..] == tail;
    assert "true"[0] == 't' && "false"[0] == 'f' && "null"[0] == 'n';
    assert Ser(nf, v) <= all;
  }

  // Parsing the canonical text of a value gives the value back, numbers in canonical form, and stops there.
  lemma {:induction false} ParsesBack(nf: Numbers, v: Json, tail: string)
    requires Lawful(nf) && Representable(nf, v) && Delimited(tail)
    ensures ParseValue(Ser(nf, v) + tail) == Some((Norm(nf, v), tail))
    decreases v, 2, 0
  {
    var all := Ser(nf, v) + tail;
    SerStarts(nf, v, tail);
    assert SkipBlanks(all) == all;
    match v
    case Num(t) => ParsesNumber(nf.canon(t).value, tail);
    case Str(s) => ReadsQuoted(s, tail);
    case Arr(es) =>
      var inner := SerElems(nf, v, 0) + ("]" + tail);
      assert all == "[" + inner && all[1..] == inner;
      ParsesArray(nf, v, tail);
    case Obj(m) =>
      SortedKeysList(m.Keys);
      var inner := SerMembers(nf, v, SortedKeys(m.Keys), 0) + ("}" + tail);
      assert all == "{" + inner && all[1..] == inner;
      ParsesObject(nf, v, tail);
    case _ => ParsesConstant(nf, v, tail);
  }

  function NormElems(nf: Numbers, es: seq<Json>, n: nat): seq<Json>
    requires n <= |es|
  {
    seq(n, i requires 0 <= i < n => Norm(nf, es[i]))
  }

  lemma ParsesArray(nf: Numbers, v: Json, tail: string)
    requires Lawful(nf) && Representable(nf, v) && v.Arr?
    ensures var inner := SerElems(nf, v, 0) + ("]" + tail);
      var u := SkipBlanks(inner);
      (if u != "" && u[0] == ']' then Some((Arr([]), u[1..])) else ParseElements(inner, [])) == Some((Norm(nf, v), tail))
    decreases v, 1, |v.elems| + 1
  {
    var inner := SerElems(nf, v, 0) + ("]" + tail);
    if v.elems == [] {
      assert inner == "]" + tail && inner[1..] == tail;
      assert Norm(nf, v) == Arr([]);
    } else {
      var rest := SerElems(nf, v, 1) + ("]" + tail);
      assert inner == Ser(nf, v.elems[0]) + rest;
      SerStarts(nf, v.elems[0], rest);
      assert SkipBlanks(inner) == inner;
      assert NormElems(nf, v.elems, 0) == [];
      ParsesElems(nf, v, 0, tail);
    }
  }

  // From the i-th element on, after those before it.
  lemma {:induction false} ParsesElems(nf: Numbers, v: Json, i: nat, tail: string)
    requires Lawful(nf) && Representable(nf, v) && v.Arr? && i < |v.elems|
    ensures ParseElements(Ser(nf, v.elems[i]) + (SerElems(nf, v, i + 1) + ("]" + tail)), NormElems(nf, v.elems, i))
      == Some((Norm(nf, v), tail))
    decreases v, 1, |v.elems| - i
  {
    var e := v.elems[i];
    var rest := SerElems(nf, v, i + 1) + ("]" + tail);
    if i + 1 == |v.elems| {
      assert rest == "]" + tail && rest[1..] == tail;
      ParsesBack(nf, e, rest);
      ElemReads(nf, v, i, rest);
      assert NormElems(nf, v.elems, i + 1) == Norm(nf, v).elems;
    } else {
      CommaBefore(nf, v, i + 1, tail);
      ParsesBack(nf, e, rest);
      ElemReads(nf, v, i, rest);
      ParsesElems(nf, v, i + 1, tail);
    }
  }

  lemma CommaBefore(nf: Numbers, v: Json, i: nat, tail: string)
    requires v.Arr? && Representable(nf, v) && 0 < i < |v.elems|
    ensures var rest := SerElems(nf, v, i) + ("]" + tail);
      rest != "" && rest[0] == ',' && rest[1..] == Ser(nf, v.elems[i]) + (SerElems(nf, v, i + 1) + ("]" + tail))
  {
    var rest := SerElems(nf, v, i) + ("]" + tail);
    assert rest == "," + (Ser(nf, v.elems[i]) + (SerElems(nf, v, i + 1) + ("]" + tail)));
  }

  // One element is read, given that its value is; what follows decides how it goes on.
  lemma ElemReads(nf: Numbers, v: Json, i: nat, rest: string)
    requires v.Arr? && Representable(nf, v) && i < |v.elems| && rest != "" && !IsBlank(rest[0])
    requires ParseValue(Ser(nf, v.elems[i]) + rest) == Some((Norm(nf, v.elems[i]), rest))
    ensures ParseElements(Ser(nf, v.elems[i]) + rest, NormElems(nf, v.elems, i)) ==
      if rest[0] == ',' then ParseElements(rest[1..], NormElems(nf, v.elems, i + 1))
      else if rest[0] == ']' then Some((Arr(NormElems(nf, v.elems, i + 1)), rest[1..]))
      else None
  {
    OneElement(Ser(nf, v.elems[i]) + rest, NormElems(nf, v.elems, i), Norm(nf, v.elems[i]), rest);
    assert NormElems(nf, v.elems, i) + [Norm(nf, v.elems[i])] == NormElems(nf, v.elems, i + 1);
  }

  lemma OneElement(s: string, elems: seq<Json>, value: Json, rest: string)
    requires ParseValue(s) == Some((value, rest)) && rest != "" && !IsBlank(rest[0])
    ensures ParseElements(s, elems) ==
      if rest[0] == ',' then ParseElements(rest[1..], elems + [value])
      else if rest[0] == ']' then Some((Arr(elems + [value]), rest[1..]))
      else None
  {
    assert SkipBlanks(rest) == rest;
  }

  // The members read so far, and with all the rest.
  function Gathered(nf: Numbers, m: map<string, Json>, keys: seq<string>, i: nat): map<string, Json>
    requires i <= |keys| && forall k :: k in keys ==> k in m
  {
    if i == 0 then map[] else Gathered(nf, m, keys, i - 1)[keys[i - 1] := Norm(nf, m[keys[i - 1]])]
  }

  lemma {:induction false} GatheredIs(nf: Numbers, m: map<string, Json>, keys: seq<string>, i: nat)
    requires i <= |keys| && forall k :: k in keys ==> k in m
    ensures Gathered(nf, m, keys, i).Keys == set k | k in keys[..i]
    ensures forall k :: k in keys[..i] ==> Gathered(nf, m, keys, i)[k] == Norm(nf, m[k])
  {
    if i > 0 {
      GatheredIs(nf, m, keys, i - 1);
      assert keys[..i] == keys[..i - 1] + [keys[i - 1]];
    }
  }

  lemma GatheredAll(nf: Numbers, m: map<string, Json>, keys: seq<string>)
    requires Lists(keys, m.Keys)
    ensures forall k :: k in keys ==> k in m
    ensures Obj(Gathered(nf, m, keys, |keys|)) == Norm(nf, Obj(m))
  {
    GatheredIs(nf, m, keys, |keys|);
    assert keys[..|keys|] == keys;
    NormObject(nf, m);
    SameMap(Gathered(nf, m, keys, |keys|), Norm(nf, Obj(m)).members);
  }

  lemma NormObject(nf: Numbers, m: map<string, Json>)
    ensures Norm(nf, Obj(m)).Obj? && Norm(nf, Obj(m)).members.Keys == m.Keys
    ensures forall k :: k in m ==> Norm(nf, Obj(m)).members[k] == Norm(nf, m[k])
  {
  }

  lemma SameMap(a: map<string, Json>, b: map<string, Json>)
    requires a.Keys == b.Keys && forall k :: k in a ==> a[k] == b[k]
    ensures a == b
  {
  }

  lemma ParsesObject(nf: Numbers, v: Json, tail: string)
    requires Lawful(nf) && Representable(nf, v) && v.Obj?
    ensures Lists(SortedKeys(v.members.Keys), v.members.Keys)
    ensures var inner := SerMembers(nf, v, SortedKeys(v.members.Keys), 0) + ("}" + tail);
      var u := SkipBlanks(inner);
      (if u != "" && u[0] == '}' then Some((Obj(map[]), u[1..])) else ParseMembers(inner, map[])) == Some((Norm(nf, v), tail))
    decreases v, 1, |SortedKeys(v.members.Keys)| + 1
  {
    var keys := SortedKeys(v.members.Keys);
    SortedKeysList(v.members.Keys);
    var inner := SerMembers(nf, v, keys, 0) + ("}" + tail);
    if keys == [] {
      assert inner == "}" + tail && inner[1..] == tail;
      GatheredAll(nf, v.members, keys);
      assert Gathered(nf, v.members, keys, 0) == map[];
    } else {
      assert keys[0] in keys;
      var first := MemberText(nf, v, keys[0], true) + (SerMembers(nf, v, keys, 1) + ("}" + tail));
      assert inner == first;
      assert inner[0] == '"' by {
        assert MemberText(nf, v, keys[0], true)[0] == SerString(keys[0])[0] == '"';
      }
      assert SkipBlanks(inner) == inner;
      ParsesMembers(nf, v, keys, 0, tail);
    }
  }

  // From the i-th member on, after those before it.
  lemma {:induction false} ParsesMembers(nf: Numbers, v: Json, keys: seq<string>, i: nat, tail: string)
    requires Lawful(nf) && Representable(nf, v) && v.Obj? && Lists(keys, v.members.Keys) && i < |keys|
    ensures keys[i] in keys
    ensures ParseMembers(MemberText(nf, v, keys[i], true) + (SerMembers(nf, v, keys, i + 1) + ("}" + tail)), Gathered(nf, v.members, keys, i))
      == Some((Norm(nf, v), tail))
    decreases v, 1, |keys| - i
  {
    assert keys[i] in keys;
    var value := v.members[keys[i]];
    var rest := SerMembers(nf, v, keys, i + 1) + ("}" + tail);
    var all := MemberText(nf, v, keys[i], true) + rest;
    if i + 1 == |keys| {
      assert rest == "}" + tail && rest[1..] == tail;
      MemberReads(nf, v, keys, i, rest);
      ParsesBack(nf, value, rest);
      GatheredAll(nf, v.members, keys);
    } else {
      CommaFirst(nf, v, keys, i + 1, tail);
      var later := MemberText(nf, v, keys[i + 1], true) + (SerMembers(nf, v, keys, i + 2) + ("}" + tail));
      assert rest == "," + later && rest[1..] == later;
      MemberReads(nf, v, keys, i, rest);
      ParsesBack(nf, value, rest);
      ParsesMembers(nf, v, keys, i + 1, tail);
    }
  }

  // One member is read, given that its value is; what follows decides how it goes on.
  lemma MemberReads(nf: Numbers, v: Json, keys: seq<string>, i: nat, rest: string)
    requires v.Obj? && Representable(nf, v) && Lists(keys, v.members.Keys) && i < |keys|
    requires rest != "" && !IsBlank(rest[0])
    ensures keys[i] in keys
    ensures ParseValue(Ser(nf, v.members[keys[i]]) + rest) == Some((Norm(nf, v.members[keys[i]]), rest)) ==>
      ParseMembers(MemberText(nf, v, keys[i], true) + rest, Gathered(nf, v.members, keys, i)) ==
      if rest[0] == ',' then ParseMembers(rest[1..], Gathered(nf, v.members, keys, i + 1))
      else if rest[0] == '}' then Some((Obj(Gathered(nf, v.members, keys, i + 1)), rest[1..]))
      else None
  {
    assert keys[i] in keys;
    var text := Ser(nf, v.members[keys[i]]) + rest;
    KeyIsNew(nf, v.members, keys, i);
    ParsesKey(nf, keys[i], text);
    MemberRegroups(nf, v, keys[i], true, rest);
    assert SkipBlanks(rest) == rest;
    if ParseValue(text) == Some((Norm(nf, v.members[keys[i]]), rest)) {
      var s := "" + (SerString(keys[i]) + (":" + text));
      assert s == SerString(keys[i]) + (":" + text);
      OneMember(s, Gathered(nf, v.members, keys, i), keys[i], text, Norm(nf, v.members[keys[i]]), rest);
    }
  }

  lemma OneMember(s: string, obj: map<string, Json>, key: string, text: string, value: Json, rest: string)
    requires ParseKey(s) == Some((key, text)) && key !in obj && ParseValue(text) == Some((value, rest))
    requires rest != "" && SkipBlanks(rest) == rest
    ensures ParseMembers(s, obj) ==
      if rest[0] == ',' then ParseMembers(rest[1..], obj[key := value])
      else if rest[0] == '}' then Some((Obj(obj[key := value]), rest[1..]))
      else None
  {
  }

  lemma CommaFirst(nf: Numbers, v: Json, keys: seq<string>, i: nat, tail: string)
    requires v.Obj? && Representable(nf, v) && 0 < i < |keys| && forall k :: k in keys ==> k in v.members
    ensures keys[i] in keys
    ensures SerMembers(nf, v, keys, i) + ("}" + tail) ==
      "," + (MemberText(nf, v, keys[i], true) + (SerMembers(nf, v, keys, i + 1) + ("}" + tail)))
  {
    assert keys[i] in keys;
    var text, later := MemberText(nf, v, keys[i], true), SerMembers(nf, v, keys, i + 1);
    CommaText(SerString(keys[i]), Ser(nf, v.members[keys[i]]));
    Assoc("," + text, later, "}" + tail);
    Assoc(",", text, later + ("}" + tail));
  }

  lemma CommaText(key: string, value: string)
    ensures "," + key + ":" + value == "," + ("" + key + ":" + value)
  {
  }

  lemma KeyIsNew(nf: Numbers, m: map<string, Json>, keys: seq<string>, i: nat)
    requires Lists(keys, m.Keys) && i < |keys|
    ensures forall k :: k in keys ==> k in m
    ensures keys[i] !in Gathered(nf, m, keys, i)
  {
    GatheredIs(nf, m, keys, i);
    forall j | 0 <= j < i
      ensures keys[j] != keys[i]
    {
      KeyOrder(keys[j], keys[i], keys[i]);
    }
  }

  lemma ParsesKey(nf: Numbers, key: string, rest: string)
    ensures ParseKey(SerString(key) + (":" + rest)) == Some((key, rest))
  {
    var all := SerString(key) + (":" + rest);
    ReadsQuoted(key, ":" + rest);
    assert SkipBlanks(all) == all && SkipBlanks(":" + rest) == ":" + rest && (":" + rest)[1..] == rest;
  }

  // ---- the scanner accepts canonical text

  lemma {:induction false} ScansPlain(p: string, tail: string)
    requires '"' !in p
    ensures Scans(p + tail, false) == Scans(tail, false)
  {
    if p == "" {
      assert p + tail == tail;
    } else {
      assert (p + tail)[1..] == p[1..] + tail;
      assert p[0] in p;
      ScansPlain(p[1..], tail);
    }
  }

  lemma ScansBracketed(open: string, inner: string, close: string, tail: string)
    requires '"' !in open && '"' !in close
    requires Scans(inner + (close + tail), false) == Scans(close + tail, false)
    ensures Scans(open + inner + close + tail, false) == Scans(tail, false)
  {
    ScansPlain(open, inner + (close + tail));
    ScansPlain(close, tail);
    assert open + inner + close + tail == open + (inner + (close + tail));
  }

  lemma {:induction false} ScansValue(nf: Numbers, v: Json, tail: string)
    requires Lawful(nf) && Representable(nf, v)
    ensures Scans(Ser(nf, v) + tail, false) == Scans(tail, false)
    decreases v, 1, 0
  {
    match v
    case Num(t) =>
      NumberChars(nf.canon(t).value);
      ScansPlain(Ser(nf, v), tail);
    case Str(s) => ReadsQuoted(s, tail);
    case Arr(es) =>
      ScansElems(nf, v, 0, "]" + tail);
      ScansBracketed("[", SerElems(nf, v, 0), "]", tail);
    case Obj(m) =>
      SortedKeysList(m.Keys);
      var keys := SortedKeys(m.Keys);
      ScansMembers(nf, v, keys, 0, "}" + tail);
      ScansBracketed("{", SerMembers(nf, v, keys, 0), "}", tail);
    case _ => ScansPlain(Ser(nf, v), tail);
  }

  lemma {:induction false} ScansElems(nf: Numbers, v: Json, i: nat, tail: string)
    requires Lawful(nf) && Representable(nf, v) && v.Arr? && i <= |v.elems|
    ensures Scans(SerElems(nf, v, i) + tail, false) == Scans(tail, false)
    decreases v, 0, |v.elems| - i
  {
    if i == |v.elems| {
      assert SerElems(nf, v, i) + tail == tail;
    } else {
      var sep := if i > 0 then "," else "";
      var rest := SerElems(nf, v, i + 1) + tail;
      ScansElems(nf, v, i + 1, tail);
      ScansValue(nf, v.elems[i], rest);
      ScansPlain(sep, Ser(nf, v.elems[i]) + rest);
      ElemRegroups(sep, Ser(nf, v.elems[i]), SerElems(nf, v, i + 1), tail);
    }
  }

  lemma ElemRegroups(sep: string, text: string, rest: string, tail: string)
    ensures sep + text + rest + tail == sep + (text + (rest + tail))
  {
  }

  lemma {:induction false} ScansMembers(nf: Numbers, v: Json, keys: seq<string>, i: nat, tail: string)
    requires Lawful(nf) && Representable(nf, v) && v.Obj? && i <= |keys| && forall k :: k in keys ==> k in v.members
    ensures Scans(SerMembers(nf, v, keys, i) + tail, false) == Scans(tail, false)
    decreases v, 0, |keys| - i
  {
    if i == |keys| {
      assert SerMembers(nf, v, keys, i) + tail == tail;
    } else {
      assert keys[i] in keys;
      var sep := if i == 0 then "" else ",";
      var rest := SerMembers(nf, v, keys, i + 1) + tail;
      var value := Ser(nf, v.members[keys[i]]) + rest;
      ScansMembers(nf, v, keys, i + 1, tail);
      ScansValue(nf, v.members[keys[i]], rest);
      ScansMember(sep, keys[i], value);
      MemberRegroups(nf, v, keys[i], i == 0, rest);
      Assoc(MemberText(nf, v, keys[i], i == 0), SerMembers(nf, v, keys, i + 1), tail);
    }
  }

  lemma ScansMember(sep: string, key: string, value: string)
    requires '"' !in sep
    ensures Scans(sep + (SerString(key) + (":" + value)), false) == Scans(value, false)
  {
    ScansPlain(":", value);
    ReadsQuoted(key, ":" + value);
    ScansPlain(sep, SerString(key) + (":" + value));
  }

  lemma MemberRegroups(nf: Numbers, v: Json, key: string, first: bool, rest: string)
    requires v.Obj? && key in v.members && Representable(nf, v.members[key])
    ensures MemberText(nf, v, key, first) + rest ==
      (if first then "" else ",") + (SerString(key) + (":" + (Ser(nf, v.members[key]) + rest)))
  {
  }

  // ---- main results

  // Normalising changes neither representability nor the canonical text.
  lemma {:induction false} NormKeepsText(nf: Numbers, v: Json)
    requires Lawful(nf) && Representable(nf, v)
    ensures Representable(nf, Norm(nf, v)) && Ser(nf, Norm(nf, v)) == Ser(nf, v)
    decreases v, 1, 0
  {
    match v
    case Arr(es) =>
      forall i | 0 <= i < |es|
        ensures Representable(nf, Norm(nf, v).elems[i])
      {
        NormKeepsText(nf, es[i]);
      }
      NormKeepsElems(nf, v, 0);
    case Obj(m) =>
      forall k | k in m
        ensures Representable(nf, Norm(nf, v).members[k])
      {
        NormKeepsText(nf, m[k]);
      }
      assert Norm(nf, v).members.Keys == m.Keys;
      SortedKeysList(m.Keys);
      NormKeepsMembers(nf, v, SortedKeys(m.Keys), 0);
    case _ =>
  }

  lemma {:induction false} NormKeepsElems(nf: Numbers, v: Json, i: nat)
    requires Lawful(nf) && Representable(nf, v) && v.Arr? && i <= |v.elems| && Representable(nf, Norm(nf, v))
    ensures SerElems(nf, Norm(nf, v), i) == SerElems(nf, v, i)
    decreases v, 0, |v.elems| - i
  {
    if i < |v.elems| {
      NormKeepsText(nf, v.elems[i]);
      NormKeepsElems(nf, v, i + 1);
    }
  }

  lemma {:induction false} NormKeepsMembers(nf: Numbers, v: Json, keys: seq<string>, i: nat)
    requires Lawful(nf) && Representable(nf, v) && v.Obj? && Representable(nf, Norm(nf, v))
    requires i <= |keys| && forall k :: k in keys ==> k in v.members
    ensures SerMembers(nf, Norm(nf, v), keys, i) == SerMembers(nf, v, keys, i)
    decreases v, 0, |keys| - i
  {
    if i < |keys| {
      assert keys[i] in keys;
      NormKeepsText(nf, v.members[keys[i]]);
      NormKeepsMembers(nf, v, keys, i + 1);
    }
  }

  // The canonical text of any value passes the scanner, parses back to the value and is its own canonical form.
  lemma RoundTrip(nf: Numbers, v: Json)
    requires Lawful(nf) && Representable(nf, v)
    ensures Scans(Ser(nf, v), false)
    ensures ParseStrict(Ser(nf, v)) == Some(Norm(nf, v))
    ensures Canonical(nf, Ser(nf, v)) == Some(Ser(nf, v))
  {
    assert Ser(nf, v) + "" == Ser(nf, v);
    ScansValue(nf, v, "");
    ParsesBack(nf, v, "");
    NormKeepsText(nf, v);
  }

  // One text per value: two values have the same canonical text iff they are the same up to the way their
  // numbers are written.
  lemma SameTextIffSameValue(nf: Numbers, v: Json, w: Json)
    requires Lawful(nf) && Representable(nf, v) && Representable(nf, w)
    ensures Ser(nf, v) == Ser(nf, w) <==> Norm(nf, v) == Norm(nf, w)
  {
    RoundTrip(nf, v);
    RoundTrip(nf, w);
    NormKeepsText(nf, v);
    NormKeepsText(nf, w);
  }

  // Canonicalize is idempotent.
  lemma CanonicalIsIdempotent(nf: Numbers, input: string)
    requires Lawful(nf) && Canonical(nf, input).Some?
    ensures Canonical(nf, Canonical(nf, input).value) == Canonical(nf, input)
  {
    RoundTrip(nf, ParseStrict(input).value);
  }

  // Two inputs have the same canonical form, hence the same hash, iff they parse to the same value up to the
  // way numbers are written: blanks, escapes and the order of members do not matter.
  lemma CanonicalMeansSameValue(nf: Numbers, a: string, b: string)
    requires Lawful(nf) && Canonical(nf, a).Some? && Canonical(nf, b).Some?
    ensures Canonical(nf, a) == Canonical(nf, b) <==>
      Norm(nf, ParseStrict(a).value) == Norm(nf, ParseStrict(b).value)
  {
    SameTextIffSameValue(nf, ParseStrict(a).value, ParseStrict(b).value);
  }
}
