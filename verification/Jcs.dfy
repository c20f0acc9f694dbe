// Canonical JSON after RFC 8785 (pkg/jcs/canonical.go). Text is a sequence of Unicode scalar values, as Go's
// decoder leaves it once the bytes are known to be valid UTF-8.
module Jcs {
  import opened Wrappers
  import Text

  // A number keeps the text it was written with.
  datatype Json =
    | Null
    | Bool(value: bool)
    | Num(text: string)
    | Str(str: string)
    | Arr(elems: seq<Json>)
    | Obj(members: map<string, Json>)

  // ---- numbers

  predicate IsDigit(c: char) {
    '0' <= c <= '9'
  }

  predicate IsNumberChar(c: char) {
    IsDigit(c) || c == '-' || c == '+' || c == '.' || c == 'e' || c == 'E'
  }

  function Digits(s: string): (n: nat)
    ensures n <= |s| && forall i :: 0 <= i < n ==> IsDigit(s[i])
  {
    if s != "" && IsDigit(s[0]) then 1 + Digits(s[1..]) else 0
  }

  predicate IsExponent(s: string) {
    s == "" ||
    ((s[0] == 'e' || s[0] == 'E') &&
     var t := if |s| > 1 && (s[1] == '+' || s[1] == '-') then s[2..] else s[1..];
     t != "" && Digits(t) == |t|)
  }

  predicate IsFraction(s: string) {
    IsExponent(s) || (s != "" && s[0] == '.' && Digits(s[1..]) > 0 && IsExponent(s[1 + Digits(s[1..])..]))
  }

  // The JSON number grammar.
  predicate IsNumber(s: string) {
    var t := if s != "" && s[0] == '-' then s[1..] else s;
    var n := Digits(t);
    n > 0 && (t[0] == '0' ==> n == 1) && IsFraction(t[n..])
  }

  function NumberRun(s: string): (n: nat)
    ensures n <= |s| && forall i :: 0 <= i < n ==> IsNumberChar(s[i])
  {
    if s != "" && IsNumberChar(s[0]) then 1 + NumberRun(s[1..]) else 0
  }

  // Float64 followed by numberToJSON: None for a number out of range.
  datatype Numbers = Numbers(canon: string -> Option<string>)

  // What it yields is a number again, and already canonical.
  ghost predicate Lawful(nf: Numbers) {
    forall t :: nf.canon(t).Some? ==> IsNumber(nf.canon(t).value) && nf.canon(nf.canon(t).value) == nf.canon(t)
  }

  // ---- UTF-16 order of keys

  // utf16.Encode
  function Utf16(s: string): seq<int> {
    if s == "" then []
    else
      var c := s[0] as int;
      (if c < 0x10000 then [c] else [0xD800 + (c - 0x10000) / 0x400, 0xDC00 + (c - 0x10000) % 0x400]) + Utf16(s[1..])
  }

  predicate KeyLess(a: string, b: string) {
    Text.LexLess(Utf16(a), Utf16(b))
  }

  method Utf16Less(a: seq<int>, b: seq<int>) returns (r: bool)
    ensures r == Text.LexLess(a, b)
  {
    var min := |a|;
    if |b| < min {
      min := |b|;
    }
    var i := 0;
    while i < min
      invariant 0 <= i <= min <= |a| && min <= |b|
      invariant Text.LexLess(a, b) == Text.LexLess(a[i..], b[i..])
    {
      if a[i] != b[i] {
        return a[i] < b[i];
      }
      i := i + 1;
    }
    return |a| < |b|;
  }

  // Scalars below 0x10000 are one unit outside the surrogate range, the others a surrogate pair: the
  // encoding loses nothing.
  lemma {:induction false} Utf16Injective(a: string, b: string)
    requires Utf16(a) == Utf16(b)
    ensures a == b
  {
    if a != "" && b != "" {
      var x, y := a[0] as int, b[0] as int;
      var u, v := Utf16(a), Utf16(b);
      FirstUnits(a);
      FirstUnits(b);
      assert (x < 0x10000) == (y < 0x10000);
      var n := if x < 0x10000 then 1 else 2;
      assert u[n..] == Utf16(a[1..]) && v[n..] == Utf16(b[1..]);
      Utf16Injective(a[1..], b[1..]);
      assert x == y;
      assert a == [a[0]] + a[1..] && b == [b[0]] + b[1..];
    } else if a != "" {
      FirstUnits(a);
    } else if b != "" {
      FirstUnits(b);
    }
  }

  lemma FirstUnits(s: string)
    requires s != ""
    ensures var c, u := s[0] as int, Utf16(s);
      if c < 0x10000 then |u| >= 1 && u[0] == c && !(0xD800 <= u[0] < 0xDC00)
      else |u| >= 2 && 0xD800 <= u[0] < 0xDC00 && c == 0x10000 + (u[0] - 0xD800) * 0x400 + (u[1] - 0xDC00)
  {
  }

  // On distinct keys the order is a strict total one.
  lemma KeyOrder(a: string, b: string, c: string)
    ensures !KeyLess(a, a)
    ensures KeyLess(a, b) ==> !KeyLess(b, a)
    ensures a != b ==> KeyLess(a, b) || KeyLess(b, a)
    ensures KeyLess(a, b) && KeyLess(b, c) ==> KeyLess(a, c)
  {
    Text.LexIsStrictTotal(Utf16(a), Utf16(b), Utf16(c));
    Text.LexIsStrictTotal(Utf16(a), Utf16(a), Utf16(a));
    if Utf16(a) == Utf16(b) {
      Utf16Injective(a, b);
    }
  }

  // It is not the order of code points: a key outside the basic plane sorts before U+FFFD.
  lemma NotCodePointOrder()
    ensures KeyLess("\U{10000}", "\U{FFFD}") && Text.Below("\U{FFFD}", "\U{10000}")
  {
    assert Text.CodePoints("\U{FFFD}")[0] == 0xFFFD && Text.CodePoints("\U{10000}")[0] == 0x10000;
    assert Utf16("\U{10000}")[0] == 0xD800;
    assert Utf16("\U{FFFD}")[0] == 0xFFFD;
  }

  ghost predicate Ascending(keys: seq<string>) {
    forall i, j :: 0 <= i < j < |keys| ==> KeyLess(keys[i], keys[j])
  }

  ghost predicate Lists(keys: seq<string>, all: set<string>) {
    Ascending(keys) && forall k :: k in keys <==> k in all
  }

  lemma {:induction false} LeastKey(keys: set<string>) returns (least: string)
    requires keys != {}
    ensures least in keys && forall k :: k in keys && k != least ==> KeyLess(least, k)
    decreases |keys|
  {
    var some :| some in keys;
    var rest := keys - {some};
    least := some;
    if rest == {} {
      assert forall k :: k in keys ==> k == some || k in rest;
    } else {
      var other := LeastKey(rest);
      KeyOrder(some, other, other);
      if KeyLess(some, other) {
        forall k | k in keys && k != some
          ensures KeyLess(some, k)
        {
          assert k in rest;
          KeyOrder(some, other, k);
        }
      } else {
        least := other;
        forall k | k in keys && k != other
          ensures KeyLess(other, k)
        {
          assert k == some || k in rest;
        }
      }
    }
  }

  ghost predicate IsLeast(keys: set<string>, least: string) {
    least in keys && forall k :: k in keys && k != least ==> KeyLess(least, k)
  }

  ghost function Least(keys: set<string>): (least: string)
    requires keys != {}
    ensures IsLeast(keys, least)
  {
    assert exists least :: IsLeast(keys, least) by {
      var least := LeastKey(keys);
      assert IsLeast(keys, least);
    }
    var least :| IsLeast(keys, least);
    least
  }

  // The keys of an object in the order they are written.
  ghost function SortedKeys(keys: set<string>): (r: seq<string>)
    decreases |keys|
  {
    if keys == {} then [] else [Least(keys)] + SortedKeys(keys - {Least(keys)})
  }

  lemma {:induction false} SortedKeysList(keys: set<string>)
    ensures Lists(SortedKeys(keys), keys)
    decreases |keys|
  {
    if keys != {} {
      var least := Least(keys);
      SortedKeysList(keys - {least});
      FirstLists(least, SortedKeys(keys - {least}), keys);
    }
  }

  lemma FirstLists(least: string, rest: seq<string>, keys: set<string>)
    requires IsLeast(keys, least) && Lists(rest, keys - {least})
    ensures Lists([least] + rest, keys)
  {
    var r := [least] + rest;
    forall i, j | 0 <= i < j < |r|
      ensures KeyLess(r[i], r[j])
    {
      assert rest[j - 1] in keys - {least};
    }
  }

  // There is only one ascending listing, so the order the members are found in does not matter.
  lemma {:induction false} ListingIsUnique(a: seq<string>, b: seq<string>, keys: set<string>)
    requires Lists(a, keys) && Lists(b, keys)
    ensures a == b
  {
    assert b == [] || b[0] in a;
    if a != [] {
      assert a[0] in keys;
      SameLeast(a, b, keys);
      RestLists(a, keys);
      RestLists(b, keys);
      ListingIsUnique(a[1..], b[1..], keys - {a[0]});
      assert a == [a[0]] + a[1..] && b == [b[0]] + b[1..];
    }
  }

  lemma SameLeast(a: seq<string>, b: seq<string>, keys: set<string>)
    requires Lists(a, keys) && Lists(b, keys) && a != []
    ensures b != [] && a[0] == b[0]
  {
    assert a[0] in b;
    assert b[0] in a;
    var i :| 0 <= i < |b| && b[i] == a[0];
    var j :| 0 <= j < |a| && a[j] == b[0];
    KeyOrder(a[0], b[0], a[0]);
  }

  lemma RestLists(a: seq<string>, keys: set<string>)
    requires Lists(a, keys) && a != []
    ensures Lists(a[1..], keys - {a[0]})
  {
    forall k
      ensures k in a[1..] <==> k in keys - {a[0]}
    {
      KeyOrder(k, k, k);
      if k in keys && k != a[0] {
        var i :| 0 <= i < |a| && a[i] == k;
        assert a[1..][i - 1] == k;
      }
      if k in a[1..] {
        var i :| 0 <= i < |a| - 1 && a[1..][i] == k;
        assert KeyLess(a[0], a[i + 1]);
      }
    }
  }

  // sort.Slice over the members, comparing with utf16Less.
  method SortKeys(keys: set<string>) returns (sorted: seq<string>)
    ensures sorted == SortedKeys(keys)
  {
    sorted := [];
    var left := keys;
    while left != {}
      invariant left <= keys && Lists(sorted, keys - left)
      decreases left
    {
      var k :| k in left;
      ghost var before := sorted;
      var at := 0;
      while at < |sorted| && !KeyLess(k, sorted[at])
        invariant 0 <= at <= |sorted|
        invariant forall i :: 0 <= i < at ==> KeyLess(sorted[i], k)
      {
        KeyOrder(k, sorted[at], k);
        at := at + 1;
      }
      InsertsAt(sorted, k, at, keys - left);
      sorted := sorted[..at] + [k] + sorted[at..];
      left := left - {k};
      assert keys - left == keys - (left + {k}) + {k};
    }
    assert keys - left == keys;
    SortedKeysList(keys);
    ListingIsUnique(sorted, SortedKeys(keys), keys);
  }

  lemma InsertsAt(sorted: seq<string>, k: string, at: nat, keys: set<string>)
    requires Lists(sorted, keys) && k !in keys && at <= |sorted|
    requires forall i :: 0 <= i < at ==> KeyLess(sorted[i], k)
    requires at < |sorted| ==> KeyLess(k, sorted[at])
    ensures Lists(sorted[..at] + [k] + sorted[at..], keys + {k})
  {
    var r := sorted[..at] + [k] + sorted[at..];
    forall i, j | 0 <= i < j < |r|
      ensures KeyLess(r[i], r[j])
    {
      if i == at {
        KeyOrder(k, sorted[at], r[j]);
      }
    }
    forall x | x in sorted
      ensures x in r
    {
      var i :| 0 <= i < |sorted| && sorted[i] == x;
      assert r[if i < at then i else i + 1] == x;
    }
    assert r[at] == k;
  }

  // ---- strings

  function HexChar(n: int): char
    requires 0 <= n < 16
  {
    if n < 10 then ('0' as int + n) as char else ('a' as int + n - 10) as char
  }

  function HexValue(c: char): (n: int)
    ensures -1 <= n < 16
  {
    if '0' <= c <= '9' then c as int - '0' as int
    else if 'a' <= c <= 'f' then c as int - 'a' as int + 10
    else if 'A' <= c <= 'F' then c as int - 'A' as int + 10
    else -1
  }

  // strconv.ParseUint(s[..4], 16, 16), -1 for anything but four hex digits
  function Hex4(s: string): (n: int)
    ensures -1 <= n < 0x10000 && (n >= 0 ==> |s| >= 4)
  {
    if |s| < 4 || HexValue(s[0]) < 0 || HexValue(s[1]) < 0 || HexValue(s[2]) < 0 || HexValue(s[3]) < 0 then -1
    else ((HexValue(s[0]) * 16 + HexValue(s[1])) * 16 + HexValue(s[2])) * 16 + HexValue(s[3])
  }

  function EscapeChar(c: char): string {
    if c == '"' then "\\\""
    else if c == '\\' then "\\\\"
    else if c == '\U{8}' then "\\b"
    else if c == '\U{C}' then "\\f"
    else if c == '\n' then "\\n"
    else if c == '\r' then "\\r"
    else if c == '\t' then "\\t"
    else if c < ' ' then "\\u00" + [HexChar(c as int / 16), HexChar(c as int % 16)]
    else [c]
  }

  function Escape(s: string): string {
    if s == "" then "" else EscapeChar(s[0]) + Escape(s[1..])
  }

  function SerString(s: string): string {
    "\"" + Escape(s) + "\""
  }

  // ---- the scanner

  predicate IsHigh(n: int) {
    0xD800 <= n <= 0xDBFF
  }

  predicate IsLow(n: int) {
    0xDC00 <= n <= 0xDFFF
  }

  predicate IsSimpleEscape(c: char) {
    c == '"' || c == '\\' || c == '/' || c == 'b' || c == 'f' || c == 'n' || c == 'r' || c == 't'
  }

  // Length of the well-formed escape that s begins with, 0 if there is none: a surrogate only as half of a pair.
  function EscapeLength(s: string): (n: nat)
    ensures n <= |s|
  {
    if |s| < 2 || s[0] != '\\' then 0
    else if IsSimpleEscape(s[1]) then 2
    else if s[1] != 'u' then 0
    else
      var cp := Hex4(s[2..]);
      if cp < 0 || IsLow(cp) then 0
      else if !IsHigh(cp) then 6
      else if |s| >= 12 && s[6] == '\\' && s[7] == 'u' && IsLow(Hex4(s[8..])) then 12
      else 0
  }

  // Scanning text that is outside, or inside, a string literal.
  predicate Scans(s: string, inString: bool)
    decreases |s|
  {
    if s == "" then !inString
    else if !inString then Scans(s[1..], s[0] == '"')
    else if s[0] == '"' then Scans(s[1..], false)
    else if s[0] < ' ' then false
    else if s[0] == '\\' then EscapeLength(s) > 0 && Scans(s[EscapeLength(s)..], true)
    else Scans(s[1..], true)
  }

  // checkUnicodeAndSurrogates on text that is valid UTF-8
  method CheckUnicodeAndSurrogates(data: string) returns (ok: bool)
    ensures ok == Scans(data, false)
  {
    var inString := false;
    var n := |data|;
    var i := 0;
    while i < n
      invariant 0 <= i <= n
      invariant Scans(data, false) == Scans(data[i..], inString)
    {
      ghost var rest := data[i..];
      var b := data[i];
      if !inString {
        if b == '"' {
          inString := true;
        }
        i := i + 1;
        assert rest[1..] == data[i..];
        continue;
      }
      if b == '"' {
        inString := false;
        i := i + 1;
        assert rest[1..] == data[i..];
        continue;
      }
      if b < ' ' {
        return false;
      }
      if b == '\\' {
        var size := CheckEscape(data, i);
        if size == 0 {
          return false;
        }
        i := i + size;
        assert rest[size..] == data[i..];
        continue;
      }
      i := i + 1;
      assert rest[1..] == data[i..];
    }
    if inString {
      return false;
    }
    return true;
  }

  // The escape at a backslash: its length, or 0 when it is not allowed.
  method CheckEscape(data: string, start: nat) returns (size: nat)
    requires start < |data| && data[start] == '\\'
    ensures size == EscapeLength(data[start..]) && start + size <= |data|
  {
    var n := |data|;
    ghost var rest := data[start..];
    var i := start + 1;
    if i >= n {
      return 0;
    }
    var esc := data[i];
    if IsSimpleEscape(esc) {
      return 2;
    }
    if esc != 'u' {
      return 0;
    }
    if i + 4 >= n {
      return 0;
    }
    var cp := Hex4(data[i + 1..]);
    assert data[i + 1..] == rest[2..];
    if cp < 0 {
      return 0;
    }
    i := i + 4;
    if 0xD800 <= cp <= 0xDBFF {
      if i + 6 >= n || data[i + 1] != '\\' || data[i + 2] != 'u' {
        assert i + 6 < n ==> rest[6] == data[i + 1] && rest[7] == data[i + 2];
        return 0;
      }
      var low := Hex4(data[i + 3..]);
      assert data[i + 3..] == rest[8..];
      if low < 0xDC00 || low > 0xDFFF {
        return 0;
      }
      return 12;
    }
    if 0xDC00 <= cp <= 0xDFFF {
      return 0;
    }
    return 6;
  }

  // ---- the serializer

  // All numbers have a canonical form.
  ghost predicate Representable(nf: Numbers, v: Json)
    decreases v
  {
    match v
    case Num(t) => nf.canon(t).Some?
    case Arr(es) => forall i :: 0 <= i < |es| ==> Representable(nf, es[i])
    case Obj(m) => forall k :: k in m ==> Representable(nf, m[k])
    case _ => true
  }

  // The canonical text.
  ghost function Ser(nf: Numbers, v: Json): string
    requires Representable(nf, v)
    decreases v, 1, 0
  {
    match v
    case Null => "null"
    case Bool(b) => if b then "true" else "false"
    case Num(t) => nf.canon(t).value
    case Str(s) => SerString(s)
    case Arr(es) => "[" + SerElems(nf, v, 0) + "]"
    case Obj(m) =>
      SortedKeysList(m.Keys);
      "{" + SerMembers(nf, v, SortedKeys(m.Keys), 0) + "}"
  }

  ghost function SerElems(nf: Numbers, v: Json, i: nat): string
    requires v.Arr? && Representable(nf, v) && i <= |v.elems|
    decreases v, 0, |v.elems| - i
  {
    if i == |v.elems| then ""
    else (if i > 0 then "," else "") + Ser(nf, v.elems[i]) + SerElems(nf, v, i + 1)
  }

  ghost function SerMembers(nf: Numbers, v: Json, keys: seq<string>, i: nat): string
    requires v.Obj? && Representable(nf, v) && i <= |keys| && forall k :: k in keys ==> k in v.members
    decreases v, 0, |keys| - i
  {
    if i == |keys| then "" else MemberText(nf, v, keys[i], i == 0) + SerMembers(nf, v, keys, i + 1)
  }

  ghost function MemberText(nf: Numbers, v: Json, key: string, first: bool): string
    requires v.Obj? && key in v.members && Representable(nf, v.members[key])
    decreases v, 0, 0
  {
    (if first then "" else ",") + SerString(key) + ":" + Ser(nf, v.members[key])
  }

  class Buffer {
    var data: string

    constructor ()
      ensures data == ""
    {
      data := "";
    }

    method WriteString(s: string)
      modifies this
      ensures data == old(data) + s
    {
      data := data + s;
    }
  }

  lemma Assoc(a: string, b: string, c: string)
    ensures (a + b) + c == a + (b + c)
  {
  }

  method WriteEscaped(b: char, buf: Buffer)
    modifies buf
    ensures buf.data == old(buf.data) + EscapeChar(b)
  {
    if b == '"' {
      buf.WriteString("\\\"");
    } else if b == '\\' {
      buf.WriteString("\\\\");
    } else if b == '\U{8}' {
      buf.WriteString("\\b");
    } else if b == '\U{C}' {
      buf.WriteString("\\f");
    } else if b == '\n' {
      buf.WriteString("\\n");
    } else if b == '\r' {
      buf.WriteString("\\r");
    } else if b == '\t' {
      buf.WriteString("\\t");
    } else if b < ' ' {
      buf.WriteString("\\u00" + [HexChar(b as int / 16), HexChar(b as int % 16)]);
    } else {
      buf.WriteString([b]);
    }
  }

  method SerializeString(s: string, buf: Buffer)
    modifies buf
    ensures buf.data == old(buf.data) + SerString(s)
  {
    buf.WriteString("\"");
    ghost var start := buf.data;
    var i := 0;
    while i < |s|
      invariant 0 <= i <= |s|
      invariant buf.data + Escape(s[i..]) == start + Escape(s)
    {
      Assoc(buf.data, EscapeChar(s[i]), Escape(s[i + 1..]));
      assert s[i..][1..] == s[i + 1..];
      WriteEscaped(s[i], buf);
      i := i + 1;
    }
    assert buf.data == start + Escape(s);
    buf.WriteString("\"");
    Assoc(old(buf.data), "\"", Escape(s));
    Assoc(old(buf.data), "\"" + Escape(s), "\"");
  }

  // Writes the canonical text, or fails exactly when some number has no canonical form.
  method SerializeCanonical(nf: Numbers, v: Json, buf: Buffer) returns (ok: bool)
    modifies buf
    ensures ok <==> Representable(nf, v)
    ensures ok ==> buf.data == old(buf.data) + Ser(nf, v)
    decreases v, 2, 0
  {
    ghost var start := buf.data;
    match v {
      case Null =>
        buf.WriteString("null");
        return true;
      case Bool(b) =>
        buf.WriteString(if b then "true" else "false");
        return true;
      case Num(t) =>
        var number := nf.canon(t);
        if number.None? {
          return false;
        }
        buf.WriteString(number.value);
        return true;
      case Str(s) =>
        SerializeString(s, buf);
        return true;
      case Arr(es) =>
        ok := SerializeElems(nf, v, buf);
      case Obj(m) =>
        ok := SerializeMembers(nf, v, buf);
    }
  }

  // One element with the comma before it.
  method SerializeElem(nf: Numbers, v: Json, i: nat, buf: Buffer) returns (ok: bool)
    requires v.Arr? && i < |v.elems|
    modifies buf
    ensures ok <==> Representable(nf, v.elems[i])
    ensures ok ==> buf.data == old(buf.data) + ((if i > 0 then "," else "") + Ser(nf, v.elems[i]))
    decreases v, 0, 0
  {
    if i > 0 {
      buf.WriteString(",");
    }
    ok := SerializeCanonical(nf, v.elems[i], buf);
    if ok {
      Assoc(old(buf.data), if i > 0 then "," else "", Ser(nf, v.elems[i]));
    }
  }

  method SerializeElems(nf: Numbers, v: Json, buf: Buffer) returns (ok: bool)
    requires v.Arr?
    modifies buf
    ensures ok <==> Representable(nf, v)
    ensures ok ==> buf.data == old(buf.data) + Ser(nf, v)
    decreases v, 1, 0
  {
    buf.WriteString("[");
    ghost var start := buf.data;
    for i := 0 to |v.elems|
      invariant forall k :: 0 <= k < i ==> Representable(nf, v.elems[k])
      invariant Representable(nf, v) ==> buf.data + SerElems(nf, v, i) == start + SerElems(nf, v, 0)
    {
      ghost var before := buf.data;
      var done := SerializeElem(nf, v, i, buf);
      if !done {
        return false;
      }
      if Representable(nf, v) {
        Assoc(before, (if i > 0 then "," else "") + Ser(nf, v.elems[i]), SerElems(nf, v, i + 1));
      }
    }
    assert buf.data == start + SerElems(nf, v, 0);
    buf.WriteString("]");
    Assoc(old(buf.data), "[", SerElems(nf, v, 0));
    Assoc(old(buf.data), "[" + SerElems(nf, v, 0), "]");
    return true;
  }

  // One member with the comma before it.
  method SerializeMember(nf: Numbers, v: Json, key: string, first: bool, buf: Buffer) returns (ok: bool)
    requires v.Obj? && key in v.members
    modifies buf
    ensures ok <==> Representable(nf, v.members[key])
    ensures ok ==> buf.data == old(buf.data) + MemberText(nf, v, key, first)
    decreases v, 0, 0
  {
    ghost var sep := if first then "" else ",";
    if !first {
      buf.WriteString(",");
    }
    SerializeString(key, buf);
    buf.WriteString(":");
    assert buf.data == old(buf.data) + (sep + SerString(key) + ":") by {
      Assoc(old(buf.data), sep, SerString(key));
      Assoc(old(buf.data), sep + SerString(key), ":");
    }
    ok := SerializeCanonical(nf, v.members[key], buf);
    if ok {
      Assoc(old(buf.data), sep + SerString(key) + ":", Ser(nf, v.members[key]));
    }
  }

  method SerializeList(nf: Numbers, v: Json, members: seq<string>, buf: Buffer) returns (ok: bool)
    requires v.Obj? && forall k :: k in members <==> k in v.members
    modifies buf
    ensures ok <==> Representable(nf, v)
    ensures ok ==> buf.data == old(buf.data) + SerMembers(nf, v, members, 0)
    decreases v, 1, 0
  {
    ghost var start := buf.data;
    for i := 0 to |members|
      invariant forall k :: k in members[..i] ==> Representable(nf, v.members[k])
      invariant Representable(nf, v) ==> buf.data + SerMembers(nf, v, members, i) == start + SerMembers(nf, v, members, 0)
    {
      ghost var before := buf.data;
      assert members[i] in members;
      var done := SerializeMember(nf, v, members[i], i == 0, buf);
      if !done {
        return false;
      }
      assert members[..i + 1] == members[..i] + [members[i]];
      if Representable(nf, v) {
        Assoc(before, MemberText(nf, v, members[i], i == 0), SerMembers(nf, v, members, i + 1));
      }
    }
    assert members[..|members|] == members;
    return true;
  }

  method SerializeMembers(nf: Numbers, v: Json, buf: Buffer) returns (ok: bool)
    requires v.Obj?
    modifies buf
    ensures ok <==> Representable(nf, v)
    ensures ok ==> buf.data == old(buf.data) + Ser(nf, v)
    decreases v, 1, 1
  {
    buf.WriteString("{");
    var members := SortKeys(v.members.Keys);
    SortedKeysList(v.members.Keys);
    assert forall k :: k in members <==> k in v.members;
    ok := SerializeList(nf, v, members, buf);
    if ok {
      buf.WriteString("}");
      Assoc(old(buf.data), "{", SerMembers(nf, v, members, 0));
      Assoc(old(buf.data), "{" + SerMembers(nf, v, members, 0), "}");
    }
  }
}
