// Which text a string is written as (section 3.2.2.2 of RFC 8785): of all texts that read back as a character the
// shortest, and of two spellings of an escape the one with lower-case digits.
module JcsEscapes {
  import opened Wrappers
  import opened Jcs
  import opened JcsParser
  import JcsLaws

  // Between quotes, the text reads back as this string.
  predicate Reads(t: string, s: string) {
    ParseStringBody(t + "\"") == Some((s, ""))
  }

  predicate HasUpperHex(t: string) {
    exists i :: 0 <= i < |t| && 'A' <= t[i] <= 'F'
  }

  // The escapes, as the standard lists them.
  lemma EscapeTable(c: char)
    ensures EscapeChar('\U{8}') == "\\b" && EscapeChar('\t') == "\\t" && EscapeChar('\n') == "\\n"
    ensures EscapeChar('\U{C}') == "\\f" && EscapeChar('\r') == "\\r"
    ensures EscapeChar('"') == "\\\"" && EscapeChar('\\') == "\\\\"
    ensures EscapeChar('\U{1F}') == "\\u001f" && EscapeChar('\0') == "\\u0000"
    ensures |EscapeChar(c)| == 6 <==> c < ' ' && c !in {'\U{8}', '\t', '\n', '\U{C}', '\r'}
    ensures |EscapeChar(c)| == 2 <==> c in {'\U{8}', '\t', '\n', '\U{C}', '\r', '"', '\\'}
    ensures EscapeChar(c) == [c] <==> c >= ' ' && c != '"' && c != '\\'
  {
  }

  lemma EscapeReads(c: char)
    ensures Reads(EscapeChar(c), [c])
  {
    JcsLaws.ReadsChar(c, "\"");
    assert "\""[1..] == "" && [c] + "" == [c];
  }

  // The first character of what a text reads as comes from a first piece of it.
  lemma FirstPiece(t: string, s: string) returns (n: nat)
    requires Reads(t, s) && s != ""
    ensures 0 < n <= |t| && Reads(t[..n], [s[0]]) && Reads(t[n..], s[1..])
  {
    var all := t + "\"";
    assert t != "";
    assert all[0] == t[0];
    if t[0] == '\\' {
      n := DecodeEscape(all).value.1;
      EscapeInside(t);
      SameEscape(t, n);
    } else {
      n := 1;
    }
    assert all[n..] == t[n..] + "\"";
    assert t[..n] + "\"" == all[..n] + "\"";
    PieceReads(t, s, n);
  }

  // An escape that reads does not reach the closing quote.
  lemma EscapeInside(t: string)
    requires t != "" && t[0] == '\\' && ParseStringBody(t + "\"").Some?
    ensures DecodeEscape(t + "\"").Some? && DecodeEscape(t + "\"").value.1 <= |t|
  {
    var all := t + "\"";
    assert all[|all|..] == "" && ParseStringBody("").None?;
  }

  // An escape is decoded from its own characters.
  lemma SameEscape(t: string, n: nat)
    requires t != "" && t[0] == '\\' && DecodeEscape(t + "\"").Some? && n == DecodeEscape(t + "\"").value.1 <= |t|
    ensures DecodeEscape(t[..n] + "\"") == DecodeEscape(t + "\"")
  {
    var all, own := t + "\"", t[..n] + "\"";
    assert forall i :: 0 <= i < n ==> own[i] == all[i];
    if n >= 6 {
      assert Hex4(own[2..]) == Hex4(all[2..]);
    }
    if n == 12 {
      assert Hex4(own[8..]) == Hex4(all[8..]);
    }
    if n == 6 {
      assert own[6] == '"';
    }
  }

  lemma PieceReads(t: string, s: string, n: nat)
    requires Reads(t, s) && s != "" && t != "" && 0 < n <= |t|
    requires if t[0] == '\\' then DecodeEscape(t + "\"").Some? && DecodeEscape(t[..n] + "\"") == DecodeEscape(t + "\"")
                                  && n == DecodeEscape(t + "\"").value.1
             else n == 1
    ensures Reads(t[..n], [s[0]]) && Reads(t[n..], s[1..])
  {
    var all, own := t + "\"", t[..n] + "\"";
    assert all[n..] == t[n..] + "\"" && own[n..] == "\"" && own[0] == all[0] == t[0];
    assert ParseStringBody("\"") == Some(("", "")) by {
      assert "\""[1..] == "";
    }
    var c := if t[0] == '\\' then DecodeEscape(all).value.0 else t[0];
    assert ParseStringBody(all) == Prepend(c, ParseStringBody(all[n..]));
    assert ParseStringBody(own) == Prepend(c, ParseStringBody("\""));
    assert [c] + "" == [c];
    var rest := ParseStringBody(all[n..]).value.0;
    assert s == [c] + rest && s[1..] == rest;
  }

  // No shorter text reads back as the character; and the one of that length without upper-case digits is the
  // escape itself. A character that may stand for itself does.
  lemma EscapeIsLeast(c: char, t: string)
    requires Reads(t, [c])
    ensures |EscapeChar(c)| <= |t|
    ensures |EscapeChar(c)| == |t| && !HasUpperHex(t) ==> t == EscapeChar(c)
    ensures t == [c] ==> EscapeChar(c) == t
  {
    EscapeTable(c);
    var all := t + "\"";
    assert ParseStringBody("" + "\"") == Some(("", "")) by {
      assert ("" + "\"")[1..] == "";
    }
    assert t != "" && all[0] == t[0];
    if t[0] != '\\' {
      assert all[1..] == t[1..] + "\"";
      var rest := ParseStringBody(all[1..]).value.0;
      assert ([t[0]] + rest)[0] == t[0] == c;
    } else {
      EscapeInside(t);
      LeastEscape(c, t);
    }
  }

  lemma LeastEscape(c: char, t: string)
    requires Reads(t, [c]) && t != "" && t[0] == '\\'
    requires DecodeEscape(t + "\"").Some? && DecodeEscape(t + "\"").value.1 <= |t|
    ensures |EscapeChar(c)| <= |t|
    ensures |EscapeChar(c)| == |t| && !HasUpperHex(t) ==> t == EscapeChar(c)
    ensures t != [c]
  {
    EscapeTable(c);
    var all := t + "\"";
    var (d, n) := DecodeEscape(all).value;
    var rest := ParseStringBody(all[n..]).value.0;
    assert ([d] + rest)[0] == d && d == c;
    assert all[1] == t[1];
    if n == 2 {
      assert SimpleEscape(t[1]) == c;
      assert |t| == 2 ==> t == ['\\', t[1]];
    } else if n == 6 && |t| == 6 && |EscapeChar(c)| == 6 {
      HexIs(c, t);
    }
  }

  // Six characters that spell a control character with lower-case digits.
  lemma HexIs(c: char, t: string)
    requires |t| == 6 && t[0] == '\\' && t[1] == 'u' && c < ' ' && DecodeEscape(t + "\"") == Some((c, 6))
    ensures !HasUpperHex(t) ==> t == "\\u00" + [HexChar(c as int / 16), HexChar(c as int % 16)]
  {
    var h := (t + "\"")[2..];
    assert h[0] == t[2] && h[1] == t[3] && h[2] == t[4] && h[3] == t[5];
    assert Hex4(h) == c as int;
    assert HexValue(t[2]) == 0 && HexValue(t[3]) == 0;
    assert HexValue(t[4]) == c as int / 16 && HexValue(t[5]) == c as int % 16;
    if !HasUpperHex(t) {
      LowerDigit(t[4]);
      LowerDigit(t[5]);
      assert t == [t[0], t[1], t[2], t[3], t[4], t[5]];
    }
  }

  lemma LowerDigit(d: char)
    requires HexValue(d) >= 0
    ensures d == HexChar(HexValue(d)) || 'A' <= d <= 'F'
  {
  }

  // No shorter text reads back as the string.
  lemma {:induction false} EscapedIsShortest(s: string, t: string)
    requires Reads(t, s)
    ensures Reads(Escape(s), s) && |Escape(s)| <= |t|
    decreases |s|
  {
    JcsLaws.ReadsString(s, "");
    assert Escape(s) + "\"" + "" == Escape(s) + "\"";
    if s != "" {
      var n := FirstPiece(t, s);
      EscapeIsLeast(s[0], t[..n]);
      EscapedIsShortest(s[1..], t[n..]);
    }
  }

  // The layout of a document: members in key order, and nothing between the tokens.
  lemma Layout(nf: Numbers, v: Json, w: Json)
    requires Representable(nf, v) && Representable(nf, w)
    ensures var list := Arr([v, w]);
      Representable(nf, list) && Ser(nf, list) == "[" + Ser(nf, v) + "," + Ser(nf, w) + "]"
    ensures var obj := Obj(map["b" := v, "a" := w]);
      Representable(nf, obj) && Ser(nf, obj) == "{\"a\":" + Ser(nf, w) + ",\"b\":" + Ser(nf, v) + "}"
    ensures Ser(nf, Null) == "null" && Ser(nf, Bool(true)) == "true" && Ser(nf, Bool(false)) == "false"
    ensures Ser(nf, Arr([])) == "[]" && Ser(nf, Obj(map[])) == "{}" && Ser(nf, Str("\n")) == "\"\\n\""
  {
    ListLayout(nf, v, w);
    ObjectLayout(nf, v, w);
    assert SerElems(nf, Arr([]), 0) == "";
    assert Obj(map[]).members.Keys == {};
    assert Escape("\n") == EscapeChar('\n') + Escape("");
  }

  lemma ListLayout(nf: Numbers, v: Json, w: Json)
    requires Representable(nf, v) && Representable(nf, w)
    ensures var list := Arr([v, w]);
      Representable(nf, list) && Ser(nf, list) == "[" + Ser(nf, v) + "," + Ser(nf, w) + "]"
  {
    var list := Arr([v, w]);
    assert SerElems(nf, list, 2) == "";
    assert SerElems(nf, list, 1) == "," + Ser(nf, w) + "";
    assert SerElems(nf, list, 0) == "" + Ser(nf, v) + SerElems(nf, list, 1);
    assert "[" + SerElems(nf, list, 0) + "]" == "[" + Ser(nf, v) + "," + Ser(nf, w) + "]";
  }

  lemma ObjectLayout(nf: Numbers, v: Json, w: Json)
    requires Representable(nf, v) && Representable(nf, w)
    ensures var obj := Obj(map["b" := v, "a" := w]);
      Representable(nf, obj) && Ser(nf, obj) == "{\"a\":" + Ser(nf, w) + ",\"b\":" + Ser(nf, v) + "}"
  {
    var obj := Obj(map["b" := v, "a" := w]);
    var keys := ["a", "b"];
    SortedPair(obj.members.Keys);
    MemberLayout(nf, obj, "a", true);
    MemberLayout(nf, obj, "b", false);
    TwoMembers(nf, obj, keys);
    Joined(Ser(nf, w), Ser(nf, v));
  }

  lemma TwoMembers(nf: Numbers, obj: Json, keys: seq<string>)
    requires obj.Obj? && Representable(nf, obj) && |keys| == 2 && keys[0] in obj.members && keys[1] in obj.members
    ensures SerMembers(nf, obj, keys, 0) == MemberText(nf, obj, keys[0], true) + MemberText(nf, obj, keys[1], false)
  {
    assert SerMembers(nf, obj, keys, 2) == "";
    assert SerMembers(nf, obj, keys, 1) == MemberText(nf, obj, keys[1], false) + "";
  }

  lemma MemberLayout(nf: Numbers, obj: Json, key: string, first: bool)
    requires obj.Obj? && key in obj.members && Representable(nf, obj.members[key]) && (key == "a" || key == "b")
    ensures MemberText(nf, obj, key, first)
         == (if first then "" else ",") + ("\"" + key + "\":") + Ser(nf, obj.members[key])
  {
    PlainKey(key[0]);
    assert key == [key[0]];
    assert SerString(key) + ":" == "\"" + key + "\":";
    Assoc(if first then "" else ",", SerString(key), ":");
  }

  lemma Joined(a: string, b: string)
    ensures "{" + (("" + ("\"" + "a" + "\":") + a) + ("," + ("\"" + "b" + "\":") + b)) + "}"
         == "{\"a\":" + a + ",\"b\":" + b + "}"
  {
  }

  lemma PlainKey(c: char)
    requires c >= ' ' && c != '"' && c != '\\'
    ensures SerString([c]) == "\"" + [c] + "\""
  {
    assert Escape([c]) == EscapeChar(c) + Escape("");
  }

  lemma SortedPair(keys: set<string>)
    requires keys == {"a", "b"}
    ensures SortedKeys(keys) == ["a", "b"]
  {
    assert Utf16("a") == [0x61] && Utf16("b") == [0x62];
    assert KeyLess("a", "b");
    SortedKeysList(keys);
    ListingIsUnique(SortedKeys(keys), ["a", "b"], keys);
  }
}
