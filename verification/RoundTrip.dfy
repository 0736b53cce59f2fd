/** JSON.parse undoes JSON.stringify, whatever the gap. */
module RoundTrip {
  import opened JsText
  import opened Json
  import opened Stringify
  import opened Parse

  // ---------- Strings ----------

  lemma HexDigitValue(d: nat)
    requires d < 16
    ensures HexValue(HexDigit(d)) == Some(d)
  {
  }

  lemma HexDigitsAddUp(c: CodeUnit)
    ensures c / 0x1000 * 0x1000 + c / 0x100 % 16 * 0x100 + c / 0x10 % 16 * 0x10 + c % 16 == c
    ensures c / 0x1000 < 16
  {
    var h := c / 16;
    assert c == h * 16 + c % 16;
    var g := h / 16;
    assert h == g * 16 + h % 16;
    assert g == c / 0x100;
    assert g == g / 16 * 16 + g % 16;
    assert g / 16 == c / 0x1000;
  }

  lemma {:induction false} ParseHexed(c: CodeUnit, k: Text)
    ensures ParseHex4(Hex4(c) + k) == Ok(c, k)
  {
    var a, b, d, e: nat := c / 0x1000, c / 0x100 % 16, c / 0x10 % 16, c % 16;
    HexDigitsAddUp(c);
    HexDigitValue(a);
    HexDigitValue(b);
    HexDigitValue(d);
    HexDigitValue(e);
    var t := [HexDigit(a), HexDigit(b), HexDigit(d), HexDigit(e)] + k;
    assert t[4..] == k;
  }

  /** Every escape starts with a unit that is not a quote and reads back as one unit. */
  lemma {:induction false} ParseEscapedUnit(c: CodeUnit, k: Text)
    ensures EscapeUnit(c)[0] != QUOTE
    ensures ParseUnit(EscapeUnit(c) + k) == Ok(c, k)
  {
    var e := EscapeUnit(c);
    var t := e + k;
    assert t[0] == e[0];
    if ShortEscape(c).Some? {
      assert t[1] == e[1] && t[2..] == k;
    } else if c < 0x20 || IsHighSurrogate(c) || IsLowSurrogate(c) {
      assert t[1] == e[1];
      assert t[2..] == Hex4(c) + k;
      ParseHexed(c, k);
    } else {
      assert t[1..] == k;
    }
  }

  lemma {:induction false} ParseStringStep(unit: Text, c: CodeUnit, later: Text, s: Text, k: Text)
    requires unit != [] && unit[0] != QUOTE
    requires ParseUnit(unit + later) == Ok(c, later)
    requires ParseString(later) == Ok(s, k)
    ensures ParseString(unit + later) == Ok([c] + s, k)
  {
  }

  lemma {:induction false} ParseRawUnit(c: CodeUnit, later: Text, s: Text, k: Text)
    requires c >= 0x20 && c != QUOTE && c != BACKSLASH
    requires ParseString(later) == Ok(s, k)
    ensures ParseString([c] + later) == Ok([c] + s, k)
  {
  }

  lemma {:induction false} ParsePair(s: Text, later: Text, k: Text)
    requires |s| >= 2 && IsHighSurrogate(s[0]) && IsLowSurrogate(s[1])
    requires ParseString(later) == Ok(s[2..], k)
    ensures ParseString(s[..2] + later) == Ok(s, k)
  {
    ParseRawUnit(s[1], later, s[2..], k);
    ParseRawUnit(s[0], [s[1]] + later, [s[1]] + s[2..], k);
    assert s[..2] + later == [s[0]] + ([s[1]] + later);
    assert [s[0]] + ([s[1]] + s[2..]) == s;
  }

  /** A string body is read back up to its closing quote, whatever units it holds. */
  lemma {:induction false} ParseEscaped(s: Text, k: Text)
    ensures ParseString(Escape(s) + ([QUOTE] + k)) == Ok(s, k)
    decreases |s|
  {
    var close := [QUOTE] + k;
    if s == [] {
      assert Escape(s) + close == close;
      assert close[1..] == k;
    } else if |s| >= 2 && IsHighSurrogate(s[0]) && IsLowSurrogate(s[1]) {
      var later := Escape(s[2..]) + close;
      ParseEscaped(s[2..], k);
      ParsePair(s, later, k);
      Regroup3(s[..2], Escape(s[2..]), close);
    } else {
      ParseEscaped(s[1..], k);
      var later := Escape(s[1..]) + close;
      ParseEscapedUnit(s[0], later);
      ParseStringStep(EscapeUnit(s[0]), s[0], later, s[1..], k);
      Regroup3(EscapeUnit(s[0]), Escape(s[1..]), close);
      assert [s[0]] + s[1..] == s;
    }
  }

  lemma {:induction false} ParseQuoted(s: Text, k: Text)
    ensures (Quote(s) + k)[0] == QUOTE
    ensures ParseString((Quote(s) + k)[1..]) == Ok(s, k)
  {
    assert (Quote(s) + k)[1..] == Escape(s) + ([QUOTE] + k);
    ParseEscaped(s, k);
  }

  // ---------- Whitespace and numerals ----------

  lemma {:induction false} SkipSpaces(w: Text, t: Text)
    requires AllSpace(w)
    ensures SkipSpace(w + t) == SkipSpace(t)
  {
    if w == [] {
      assert w + t == t;
    } else {
      assert (w + t)[1..] == w[1..] + t;
      SkipSpaces(w[1..], t);
    }
  }

  lemma {:induction false} RunOfNumeral(n: Text, k: Text)
    requires forall i :: 0 <= i < |n| ==> IsNumeralUnit(n[i])
    requires k == [] || !IsNumeralUnit(k[0])
    ensures NumeralRun(n + k) == |n|
  {
    if n == [] {
      assert n + k == k;
    } else {
      assert (n + k)[1..] == n[1..] + k;
      RunOfNumeral(n[1..], k);
    }
  }

  lemma NumeralNotEmpty(n: Numeral)
    ensures n != []
  {
    assert IsNumeral(n);
    var body := if n != [] && n[0] == 0x2D then n[1..] else n;
    var i, j :| 0 <= i <= j <= |body| && IsInt(body[..i]) && IsFraction(body[i..j]) && IsExponent(body[j..]);
    var intPart := body[..i];
    assert IsInt(intPart);
    assert |intPart| > 0;
  }

  lemma {:induction false} ParseNumeral(n: Numeral, k: Text)
    requires k == [] || !IsNumeralUnit(k[0])
    ensures ParseValue(n + k) == Ok(Num(n), k)
  {
    var t := n + k;
    NumeralNotEmpty(n);
    assert IsNumeralUnit(t[0]) by { assert t[0] == n[0]; }
    assert SkipSpace(t) == t;
    RunOfNumeral(n, k);
    assert t[..|n|] == n && t[|n|..] == k;
    assert !(NULL <= t) by { assert NULL[0] == 0x6E; }
    assert !(TRUE <= t) by { assert TRUE[0] == 0x74; }
    assert !(FALSE <= t) by { assert FALSE[0] == 0x66; }
  }

  // ---------- Values ----------

  /** Text that may follow the serialization of `v`: a numeral must not run on. */
  predicate Follows(v: Json, k: Text) {
    v.Num? ==> k == [] || !IsNumeralUnit(k[0])
  }

  lemma {:induction false} BreakIsSpace(gap: Text, indent: Text)
    requires AllSpace(gap) && AllSpace(indent)
    ensures AllSpace(Break(gap, indent)) && AllSpace(Deeper(gap, indent))
  {
  }

  /** Leading whitespace does not change what is read. */
  lemma {:induction false} ParseAfterSpace(w: Text, t: Text)
    requires AllSpace(w)
    ensures ParseValue(w + t) == ParseValue(t)
    ensures ParseItems(w + t) == ParseItems(t)
    ensures ParseMembers(w + t) == ParseMembers(t)
  {
    SkipSpaces(w, t);
    assert ParseKey(w + t) == ParseKey(t);
  }

  lemma {:induction false} ParseConstant(v: Json, k: Text)
    requires v.Null? || v.Bool?
    ensures ParseValue(Compact(v) + k) == Ok(v, k)
  {
    var word := Compact(v);
    var t := word + k;
    assert t[|word|..] == k && word <= t;
    assert NULL[0] == 0x6E && TRUE[0] == 0x74 && FALSE[0] == 0x66;
    assert t[0] == word[0];
    assert SkipSpace(t) == t;
  }

  lemma {:induction false} ParseInBrackets(items: seq<Json>, w: Text, body: Text, k: Text)
    requires AllSpace(w)
    requires body != [] && !IsSpace(body[0]) && body[0] != RBRACKET
    requires ParseItems(body) == Ok(items, k)
    ensures ParseValue([LBRACKET] + (w + body)) == Ok(Arr(items), k)
  {
    var t := [LBRACKET] + (w + body);
    assert t[1..] == w + body;
    SkipSpaces(w, body);
    ParseAfterSpace(w, body);
  }

  lemma {:induction false} ParseInBraces(ms: seq<Member>, w: Text, body: Text, k: Text)
    requires AllSpace(w)
    requires body != [] && body[0] == QUOTE
    requires ParseMembers(body) == Ok(ms, k)
    ensures ParseValue([LBRACE] + (w + body)) == Ok(Obj(ms), k)
  {
    var t := [LBRACE] + (w + body);
    assert t[1..] == w + body;
    SkipSpaces(w, body);
    ParseAfterSpace(w, body);
  }

  /** The value that was written is read back, and reading stops where writing stopped. */
  lemma {:induction false} ParseSerialized(v: Json, gap: Text, indent: Text, k: Text)
    requires AllSpace(gap) && AllSpace(indent)
    requires Follows(v, k)
    ensures ParseValue(Serialize(v, gap, indent) + k) == Ok(v, k)
    decreases v, 1
  {
    match v {
      case Null => ParseConstant(v, k);
      case Bool(b) => ParseConstant(v, k);
      case Num(n) => ParseNumeral(n, k);
      case Str(s) => ParseQuoted(s, k);
      case Arr(items) => ParseSerializedArray(items, gap, indent, k);
      case Obj(ms) => ParseSerializedObject(ms, gap, indent, k);
    }
  }

  lemma {:induction false} ParseSerializedArray(items: seq<Json>, gap: Text, indent: Text, k: Text)
    requires AllSpace(gap) && AllSpace(indent)
    ensures ParseValue(Serialize(Arr(items), gap, indent) + k) == Ok(Arr(items), k)
    decreases items, 1
  {
    if items == [] {
      assert ([LBRACKET, RBRACKET] + k)[1..] == [RBRACKET] + k;
      assert ([RBRACKET] + k)[1..] == k;
    } else {
      BreakIsSpace(gap, indent);
      var inner := Deeper(gap, indent);
      var tail := Break(gap, indent) + ([RBRACKET] + k);
      var body := SerializeItems(items, gap, inner);
      RegroupBracketed([LBRACKET], Break(gap, inner), body, Break(gap, indent), [RBRACKET], k);
      ParseSerializedItems(items, gap, inner, Break(gap, indent), k);
      ItemsStart(items, gap, inner, tail);
      ParseInBrackets(items, Break(gap, inner), body + tail, k);
    }
  }

  lemma {:induction false} ParseSerializedObject(ms: seq<Member>, gap: Text, indent: Text, k: Text)
    requires AllSpace(gap) && AllSpace(indent)
    ensures ParseValue(Serialize(Obj(ms), gap, indent) + k) == Ok(Obj(ms), k)
    decreases ms, 1
  {
    if ms == [] {
      assert ([LBRACE, RBRACE] + k)[1..] == [RBRACE] + k;
      assert ([RBRACE] + k)[1..] == k;
    } else {
      hide Break, Deeper, AllSpace, ParseMembers;
      BreakIsSpace(gap, indent);
      var inner := Deeper(gap, indent);
      var tail := Break(gap, indent) + ([RBRACE] + k);
      var body := SerializeMembers(ms, gap, inner);
      RegroupBracketed([LBRACE], Break(gap, inner), body, Break(gap, indent), [RBRACE], k);
      ParseSerializedMembers(ms, gap, inner, Break(gap, indent), k);
      MembersStart(ms, gap, inner, tail);
      ParseInBraces(ms, Break(gap, inner), body + tail, k);
    }
  }

  /** A serialized value starts with neither whitespace nor a closing bracket. */
  lemma {:induction false} ValueStart(v: Json, gap: Text, indent: Text)
    ensures var t := Serialize(v, gap, indent); t != [] && !IsSpace(t[0]) && t[0] != RBRACKET
  {
    assert NULL[0] == 0x6E && TRUE[0] == 0x74 && FALSE[0] == 0x66;
    if v.Num? {
      NumeralNotEmpty(v.numeral);
      assert IsNumeralUnit(v.numeral[0]);
    }
  }

  lemma {:induction false} ItemsStart(items: seq<Json>, gap: Text, indent: Text, k: Text)
    requires items != []
    ensures var t := SerializeItems(items, gap, indent) + k; t != [] && !IsSpace(t[0]) && t[0] != RBRACKET
  {
    ValueStart(items[0], gap, indent);
  }

  lemma {:induction false} ParseLastItem(t: Text, v: Json, w: Text, k: Text)
    requires AllSpace(w)
    requires ParseValue(t) == Ok(v, w + ([RBRACKET] + k))
    ensures ParseItems(t) == Ok([v], k)
  {
    SkipSpaces(w, [RBRACKET] + k);
    assert ([RBRACKET] + k)[1..] == k;
  }

  lemma {:induction false} ParseMoreItems(t: Text, v: Json, w: Text, body: Text, items: seq<Json>, k: Text)
    requires AllSpace(w)
    requires ParseValue(t) == Ok(v, [COMMA] + (w + body))
    requires ParseItems(body) == Ok(items, k)
    ensures ParseItems(t) == Ok([v] + items, k)
  {
    assert ([COMMA] + (w + body))[1..] == w + body;
    ParseAfterSpace(w, body);
  }

  lemma {:induction false} MembersStart(ms: seq<Member>, gap: Text, indent: Text, k: Text)
    requires ms != []
    ensures var t := SerializeMembers(ms, gap, indent) + k; t != [] && t[0] == QUOTE
  {
  }

  lemma {:induction false} ParseSerializedItems(items: seq<Json>, gap: Text, indent: Text, w: Text, k: Text)
    requires items != []
    requires AllSpace(gap) && AllSpace(indent) && AllSpace(w)
    ensures ParseItems(SerializeItems(items, gap, indent) + (w + ([RBRACKET] + k))) == Ok(items, k)
    decreases items, 0
  {
    BreakIsSpace(gap, indent);
    var tail := w + ([RBRACKET] + k);
    var first := Serialize(items[0], gap, indent);
    if |items| == 1 {
      ParseSerialized(items[0], gap, indent, tail);
      ParseLastItem(first + tail, items[0], w, k);
      assert items == [items[0]];
    } else {
      var rest := SerializeItems(items[1..], gap, indent);
      var body := rest + tail;
      ParseSerializedItems(items[1..], gap, indent, w, k);
      var later := [COMMA] + (Break(gap, indent) + body);
      assert Follows(items[0], later);
      ParseSerialized(items[0], gap, indent, later);
      ParseMoreItems(first + later, items[0], Break(gap, indent), body, items[1..], k);
      RegroupEntries(first, [COMMA], Break(gap, indent), rest, tail);
      assert [items[0]] + items[1..] == items;
    }
  }

  lemma {:induction false} ParseSerializedKey(key: Text, gap: Text, k: Text)
    ensures ParseKey(Quote(key) + (Colon(gap) + k)).Ok?
    ensures var r := ParseKey(Quote(key) + (Colon(gap) + k));
      r.value == key && r.rest == (if gap == [] then [] else [SPACE]) + k
  {
    var t := Quote(key) + (Colon(gap) + k);
    ParseQuoted(key, Colon(gap) + k);
    assert SkipSpace(t) == t;
    var after := Colon(gap) + k;
    assert after[0] == COLON;
    assert after[1..] == (if gap == [] then [] else [SPACE]) + k;
  }

  lemma {:induction false} ParseLastMember(t: Text, after: Text, key: Text, v: Json, w: Text, k: Text)
    requires AllSpace(w)
    requires ParseKey(t) == Ok(key, after)
    requires ParseValue(after) == Ok(v, w + ([RBRACE] + k))
    ensures ParseMembers(t) == Ok([Member(key, v)], k)
  {
    SkipSpaces(w, [RBRACE] + k);
    assert ([RBRACE] + k)[1..] == k;
  }

  lemma {:induction false} ParseMoreMembers(
    t: Text, after: Text, key: Text, v: Json, w: Text, body: Text, ms: seq<Member>, k: Text)
    requires AllSpace(w)
    requires ParseKey(t) == Ok(key, after)
    requires ParseValue(after) == Ok(v, [COMMA] + (w + body))
    requires ParseMembers(body) == Ok(ms, k)
    ensures ParseMembers(t) == Ok([Member(key, v)] + ms, k)
  {
    assert ([COMMA] + (w + body))[1..] == w + body;
    ParseAfterSpace(w, body);
  }

  /** Reads the key of a serialized member and gets ready to read its value. */
  lemma {:induction false} ParseSerializedMember(m: Member, gap: Text, indent: Text, k: Text)
    returns (after: Text)
    requires AllSpace(gap) && AllSpace(indent)
    requires Follows(m.value, k)
    ensures ParseKey(SerializeMember(m, gap, indent) + k) == Ok(m.key, after)
    ensures ParseValue(after) == Ok(m.value, k)
    decreases m, 2
  {
    var value := Serialize(m.value, gap, indent);
    var space: Text := if gap == [] then [] else [SPACE];
    after := space + (value + k);
    Regroup4(Quote(m.key), Colon(gap), value, k);
    ParseSerializedKey(m.key, gap, value + k);
    ParseAfterSpace(space, value + k);
    ParseSerialized(m.value, gap, indent, k);
  }

  /** The text of the members: the first one, and the others behind a comma. */
  lemma {:induction false} MembersText(ms: seq<Member>, gap: Text, indent: Text, tail: Text)
    requires ms != []
    ensures SerializeMembers(ms, gap, indent) + tail
         == SerializeMember(ms[0], gap, indent)
            + if |ms| == 1 then tail
              else [COMMA] + (Break(gap, indent) + (SerializeMembers(ms[1..], gap, indent) + tail))
  {
    if |ms| > 1 {
      RegroupEntries(SerializeMember(ms[0], gap, indent), [COMMA], Break(gap, indent),
                     SerializeMembers(ms[1..], gap, indent), tail);
    }
  }

  lemma {:induction false} ParseSerializedMembers(ms: seq<Member>, gap: Text, indent: Text, w: Text, k: Text)
    requires ms != []
    requires AllSpace(gap) && AllSpace(indent) && AllSpace(w)
    ensures ParseMembers(SerializeMembers(ms, gap, indent) + (w + ([RBRACE] + k))) == Ok(ms, k)
    decreases ms, 0
  {
    hide SerializeMembers, SerializeMember, ParseMembers, Break;
    BreakIsSpace(gap, indent);
    var tail := w + ([RBRACE] + k);
    var first := SerializeMember(ms[0], gap, indent);
    MembersText(ms, gap, indent, tail);
    if |ms| == 1 {
      var after := ParseSerializedMember(ms[0], gap, indent, tail);
      ParseLastMember(first + tail, after, ms[0].key, ms[0].value, w, k);
      assert ms == [ms[0]];
    } else {
      var body := SerializeMembers(ms[1..], gap, indent) + tail;
      ParseSerializedMembers(ms[1..], gap, indent, w, k);
      var later := [COMMA] + (Break(gap, indent) + body);
      assert Follows(ms[0].value, later);
      var after := ParseSerializedMember(ms[0], gap, indent, later);
      ParseMoreMembers(first + later, after, ms[0].key, ms[0].value, Break(gap, indent), body, ms[1..], k);
      assert [ms[0]] + ms[1..] == ms;
    }
  }

  // ---------- Main results ----------

  /** Any serialization with a whitespace gap is read back, with repeated keys collapsed. */
  lemma {:induction false} ParseStringify(v: Json, gap: Text)
    requires AllSpace(gap)
    ensures JsonParse(Serialize(v, gap, [])) == Some(Collapse(v))
  {
    ParseSerialized(v, gap, [], []);
    assert Serialize(v, gap, []) + [] == Serialize(v, gap, []);
  }

  /** With anything but whitespace behind it, the parse fails. */
  lemma {:induction false} ParseRejectsMore(v: Json, gap: Text, k: Text)
    requires AllSpace(gap) && Follows(v, k)
    ensures JsonParse(Serialize(v, gap, []) + k) == if SkipSpace(k) == [] then Some(Collapse(v)) else None
  {
    ParseSerialized(v, gap, [], k);
  }

  /** It is read back as the tree itself exactly when no object repeats a key, as in every JavaScript value. */
  lemma {:induction false} RoundTripIffDistinct(v: Json, gap: Text)
    requires AllSpace(gap)
    ensures JsonParse(Serialize(v, gap, [])) == Some(v) <==> DistinctKeys(v)
  {
    ParseStringify(v, gap);
    CollapseIsDistinct(v);
    if DistinctKeys(v) {
      CollapseDistinct(v);
    }
  }

  /** The compact and the indented text are read as the same tree. */
  lemma {:induction false} PrettyAndCompactAgree(v: Json)
    ensures JsonParse(Pretty(v)) == JsonParse(Compact(v)) == Some(Collapse(v))
  {
    ParseStringify(v, [SPACE, SPACE]);
    ParseStringify(v, []);
  }

  /** Different trees have different texts, even if repeated keys were allowed. */
  lemma {:induction false} StringifyInjective(v: Json, w: Json, gap: Text)
    requires AllSpace(gap)
    ensures Serialize(v, gap, []) == Serialize(w, gap, []) <==> v == w
  {
    ParseSerialized(v, gap, [], []);
    ParseSerialized(w, gap, [], []);
    assert Serialize(v, gap, []) + [] == Serialize(v, gap, []);
    assert Serialize(w, gap, []) + [] == Serialize(w, gap, []);
  }
}
