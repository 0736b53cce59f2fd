/** Which units QuoteJSONString escapes, and how: section 25.5.2.2 of ECMA-262 (2021). */
module Escaping {
  import opened JsText
  import opened Json
  import opened Stringify
  import opened Parse

  predicate IsSurrogate(c: CodeUnit) {
    IsHighSurrogate(c) || IsLowSurrogate(c)
  }

  predicate HasSurrogate(s: Text) {
    exists i :: 0 <= i < |s| && IsSurrogate(s[i])
  }

  /** The unit at `i` is half of a surrogate pair whose other half is not beside it. */
  predicate IsUnpaired(s: Text, i: nat)
    requires i < |s|
  {
    || (IsHighSurrogate(s[i]) && !(i + 1 < |s| && IsLowSurrogate(s[i + 1])))
    || (IsLowSurrogate(s[i]) && !(i > 0 && IsHighSurrogate(s[i - 1])))
  }

  /** Well-formed UTF-16. */
  predicate IsWellFormed(s: Text) {
    forall i :: 0 <= i < |s| ==> !IsUnpaired(s, i)
  }

  /** A unit that cannot stand for itself in a literal, whatever is beside it. */
  predicate NeedsEscape(c: CodeUnit) {
    c == QUOTE || c == BACKSLASH || c < 0x20
  }

  /** The string can stand in a literal as it is. */
  predicate IsRaw(s: Text) {
    IsWellFormed(s) && forall i :: 0 <= i < |s| ==> !NeedsEscape(s[i])
  }

  predicate StartsPair(s: Text) {
    |s| >= 2 && IsHighSurrogate(s[0]) && IsLowSurrogate(s[1])
  }

  // ---------- Cutting a string in two ----------

  /** A cut that does not split a pair. */
  predicate CutsBetween(a: Text, b: Text) {
    a == [] || b == [] || !IsHighSurrogate(a[|a| - 1]) || !IsLowSurrogate(b[0])
  }

  lemma {:induction false} UnpairedInConcat(a: Text, b: Text)
    requires CutsBetween(a, b)
    ensures forall i :: 0 <= i < |a| ==> (IsUnpaired(a + b, i) <==> IsUnpaired(a, i))
    ensures forall i :: 0 <= i < |b| ==> (IsUnpaired(a + b, |a| + i) <==> IsUnpaired(b, i))
  {
  }

  lemma {:induction false} WellFormedConcat(a: Text, b: Text)
    requires CutsBetween(a, b)
    ensures IsWellFormed(a + b) <==> IsWellFormed(a) && IsWellFormed(b)
  {
    UnpairedInConcat(a, b);
    if IsWellFormed(a + b) {
      forall i | 0 <= i < |b| ensures !IsUnpaired(b, i) {
        assert !IsUnpaired(a + b, |a| + i);
      }
    }
    if IsWellFormed(a) && IsWellFormed(b) {
      forall i | 0 <= i < |a + b| ensures !IsUnpaired(a + b, i) {
        assert i >= |a| ==> !IsUnpaired(b, i - |a|);
      }
    }
  }

  lemma {:induction false} RawConcat(a: Text, b: Text)
    requires CutsBetween(a, b)
    ensures IsRaw(a + b) <==> IsRaw(a) && IsRaw(b)
  {
    WellFormedConcat(a, b);
    if IsRaw(a + b) {
      assert forall i :: 0 <= i < |a| ==> (a + b)[i] == a[i];
      assert forall i :: 0 <= i < |b| ==> (a + b)[|a| + i] == b[i];
    }
  }

  lemma FirstUnit(s: Text)
    requires s != []
    ensures s == s[..1] + s[1..]
    ensures !StartsPair(s) ==> CutsBetween(s[..1], s[1..])
  {
  }

  lemma FirstPair(s: Text)
    requires StartsPair(s)
    ensures s == s[..2] + s[2..] && CutsBetween(s[..2], s[2..])
    ensures IsRaw(s[..2])
  {
  }

  /** Escaping treats the parts of a string separately, unless the cut splits a pair. */
  lemma {:induction false} EscapeConcat(a: Text, b: Text)
    requires CutsBetween(a, b)
    ensures Escape(a + b) == Escape(a) + Escape(b)
    decreases |a|
  {
    var s := a + b;
    if a == [] {
      assert s == b;
    } else if StartsPair(a) {
      assert s[..2] == a[..2] && s[2..] == a[2..] + b;
      EscapeConcat(a[2..], b);
      Regroup3(a[..2], Escape(a[2..]), Escape(b));
    } else {
      assert s[0] == a[0] && s[1..] == a[1..] + b;
      assert !StartsPair(s);
      EscapeConcat(a[1..], b);
      Regroup3(EscapeUnit(a[0]), Escape(a[1..]), Escape(b));
    }
  }

  // ---------- What is escaped ----------

  lemma {:induction false} EscapeOfOne(c: CodeUnit)
    ensures Escape([c]) == EscapeUnit(c)
    ensures EscapeUnit(c) == [c] <==> IsRaw([c])
  {
    var s := [c];
    assert s[1..] == [];
    assert IsUnpaired(s, 0) <==> IsSurrogate(c);
    if IsRaw(s) {
      assert !IsUnpaired(s, 0) && !NeedsEscape(s[0]);
    }
  }

  lemma {:induction false} EscapeIsLonger(s: Text)
    ensures |Escape(s)| >= |s|
    decreases |s|
  {
    if s != [] {
      EscapeIsLonger(s[if StartsPair(s) then 2 else 1..]);
    }
  }

  lemma ConcatEqual(a: Text, b: Text, x: Text, y: Text)
    requires |x| >= |a| && |y| >= |b|
    ensures x + y == a + b <==> x == a && y == b
  {
    if x + y == a + b {
      assert |x| == |a|;
      assert x == (x + y)[..|x|] && a == (a + b)[..|a|];
      assert y == (x + y)[|x|..] && b == (a + b)[|a|..];
    }
  }

  lemma {:induction false} EscapeKeepsRaw(s: Text)
    ensures Escape(s) == s <==> IsRaw(s)
    decreases |s|
  {
    if s == [] {
    } else if StartsPair(s) {
      FirstPair(s);
      RawConcat(s[..2], s[2..]);
      EscapeKeepsRaw(s[2..]);
      EscapeIsLonger(s[2..]);
      ConcatEqual(s[..2], s[2..], s[..2], Escape(s[2..]));
    } else {
      FirstUnit(s);
      RawConcat(s[..1], s[1..]);
      assert s[..1] == [s[0]];
      EscapeOfOne(s[0]);
      EscapeKeepsRaw(s[1..]);
      EscapeIsLonger(s[1..]);
      ConcatEqual([s[0]], s[1..], EscapeUnit(s[0]), Escape(s[1..]));
    }
  }

  /** A string is quoted as it is exactly when it holds no quote, no backslash, no control character and no
      unpaired surrogate. */
  lemma {:induction false} QuotedAsItIs(s: Text)
    ensures Quote(s) == [QUOTE] + s + [QUOTE] <==> IsRaw(s)
  {
    EscapeKeepsRaw(s);
    if Quote(s) == [QUOTE] + s + [QUOTE] {
      assert Escape(s) == Quote(s)[1..|Quote(s)| - 1] == s;
    }
  }

  // ---------- How it is escaped ----------

  /** The escapes are well-formed UTF-16, whatever the string is. */
  lemma {:induction false} EscapeIsWellFormed(s: Text)
    ensures IsWellFormed(Escape(s))
    decreases |s|
  {
    if s == [] {
    } else if StartsPair(s) {
      EscapeIsWellFormed(s[2..]);
      FirstPair(s);
      WellFormedConcat(s[..2], Escape(s[2..]));
    } else {
      EscapeIsWellFormed(s[1..]);
      var e := EscapeUnit(s[0]);
      assert forall i :: 0 <= i < |e| ==> !IsSurrogate(e[i]);
      WellFormedConcat(e, Escape(s[1..]));
    }
  }

  /** What a reader takes for one unit is at least as long as its escape, unless it is a raw surrogate. */
  lemma {:induction false} EscapeUnitIsShortest(t: Text)
    requires t != [] && t[0] != QUOTE && ParseUnit(t).Ok?
    requires !IsSurrogate(t[0])
    ensures var (c, rest) := (ParseUnit(t).value, ParseUnit(t).rest);
      |EscapeUnit(c)| <= |t| - |rest| <= 6 && rest == t[|t| - |rest|..]
      && (|t| - |rest| == 6 || !IsSurrogate(c))
      && !IsSurrogate(t[|t| - |rest| - 1])
  {
    if t[0] == BACKSLASH && t[1] == 0x75 {
      assert t[2..][4..] == t[6..];
      assert t[5] == t[2..][3];
    }
  }

  /** Escaping a string together costs no more than escaping its first unit by six units. */
  lemma {:induction false} EscapeSplit(s: Text)
    requires s != []
    ensures |Escape(s)| <= 6 + |Escape(s[1..])|
    ensures !IsSurrogate(s[0]) ==> |Escape(s)| == |EscapeUnit(s[0])| + |Escape(s[1..])|
  {
    if StartsPair(s) {
      var later := s[1..];
      assert later[1..] == s[2..];
      assert !StartsPair(later);
      assert |Escape(later)| == |EscapeUnit(later[0])| + |Escape(later[1..])|;
    }
  }

  lemma {:induction false} WellFormedBehind(t: Text, n: nat)
    requires n <= |t| && IsWellFormed(t)
    requires n > 0 ==> !IsHighSurrogate(t[n - 1])
    ensures IsWellFormed(t[n..])
  {
    assert t == t[..n] + t[n..];
    WellFormedConcat(t[..n], t[n..]);
  }

  /** A raw pair in the literal is a pair in the string. */
  lemma {:induction false} RawPairIsRead(s: Text, t: Text, rest: Text)
    requires StartsPair(t) && ParseString(t) == Ok(s, rest)
    ensures StartsPair(s) && ParseString(t[2..]) == Ok(s[2..], rest)
  {
    assert t[1..][1..] == t[2..];
    assert ParseString(t[1..]) == Ok(s[1..], rest);
    assert ParseString(t[1..][1..]) == Ok(s[1..][1..], rest);
  }

  lemma PairedAtStart(t: Text)
    requires IsWellFormed(t) && t != [] && IsSurrogate(t[0])
    ensures StartsPair(t)
  {
    assert !IsUnpaired(t, 0);
  }

  /** Behind the first unit of the literal that is not a raw surrogate. */
  lemma {:induction false} ShortestStep(s: Text, t: Text, rest: Text) returns (n: nat)
    requires s != [] && ParseString(t) == Ok(s, rest) && t != [] && !IsSurrogate(t[0])
    ensures 0 < n <= |t| && |Escape(s)| <= n + |Escape(s[1..])|
    ensures ParseString(t[n..]) == Ok(s[1..], rest)
    ensures IsWellFormed(t) ==> IsWellFormed(t[n..])
  {
    hide IsWellFormed, EscapeUnit, Escape;
    EscapeSplit(s);
    EscapeUnitIsShortest(t);
    n := |t| - |ParseUnit(t).rest|;
    if IsWellFormed(t) {
      WellFormedBehind(t, n);
    }
  }

  /** A literal that is read as the string takes at least as many units as its escapes and the closing quote:
      in any text if the string holds no surrogate, and in well-formed UTF-16 otherwise. */
  lemma {:induction false} LiteralIsShortest(s: Text, t: Text, rest: Text)
    requires ParseString(t) == Ok(s, rest)
    requires IsWellFormed(t) || !HasSurrogate(s)
    ensures |Escape(s)| + 1 <= |t| - |rest|
    ensures IsWellFormed(t) ==> IsWellFormed(rest)
    decreases |t|
  {
    if t[0] == QUOTE {
      if IsWellFormed(t) {
        WellFormedBehind(t, 1);
      }
    } else if IsSurrogate(t[0]) {
      assert s[0] == t[0];
      PairedAtStart(t);
      RawPairIsRead(s, t, rest);
      FirstPair(t);
      WellFormedBehind(t, 2);
      LiteralIsShortest(s[2..], t[2..], rest);
    } else {
      var n := ShortestStep(s, t, rest);
      LiteralIsShortest(s[1..], t[n..], rest);
    }
  }

  /** No literal for the string is shorter: none at all if the string holds no surrogate, and none in
      well-formed UTF-16 otherwise. */
  lemma {:induction false} EscapeIsShortest(s: Text, t: Text)
    requires ParseString(t + [QUOTE]) == Ok(s, [])
    requires IsWellFormed(t) || !HasSurrogate(s)
    ensures |Escape(s)| <= |t|
  {
    WellFormedConcat(t, [QUOTE]);
    LiteralIsShortest(s, t + [QUOTE], []);
  }

  predicate IsUpperCase(c: CodeUnit) {
    0x41 <= c <= 0x5A
  }

  /** A unit that is not raw is written with a backslash and no upper-case letter: its hexadecimal digits
      are lower case. */
  lemma {:induction false} EscapesAreLowerCase(c: CodeUnit)
    requires !IsRaw([c])
    ensures Escape([c])[0] == BACKSLASH
    ensures forall i :: 0 <= i < |Escape([c])| ==> !IsUpperCase(Escape([c])[i])
  {
    EscapeOfOne(c);
  }

  // ---------- The compact text is the shortest ----------

  lemma {:induction false} SkipSpaceShortest(t: Text)
    requires IsWellFormed(t)
    ensures IsWellFormed(SkipSpace(t))
  {
    if t != [] && IsSpace(t[0]) {
      WellFormedBehind(t, 1);
      SkipSpaceShortest(t[1..]);
    }
  }

  lemma {:induction false} NumberShortest(t: Text)
    requires IsWellFormed(t) && ParseNumber(t).Ok?
    ensures var r := ParseNumber(t); |Compact(r.value)| <= |t| - |r.rest| && IsWellFormed(r.rest)
  {
    var n := NumeralRun(t);
    assert IsNumeralUnit(t[..n][n - 1]);
    WellFormedBehind(t, n);
  }

  lemma {:induction false} ConstantShortest(t: Text)
    requires IsWellFormed(t) && (NULL <= t || TRUE <= t || FALSE <= t)
    ensures NULL <= t ==> IsWellFormed(t[4..])
    ensures TRUE <= t ==> IsWellFormed(t[4..])
    ensures FALSE <= t ==> IsWellFormed(t[5..])
  {
    assert NULL[3] == 0x6C && TRUE[3] == 0x65 && FALSE[4] == 0x65;
    if NULL <= t || TRUE <= t {
      WellFormedBehind(t, 4);
    }
    if FALSE <= t {
      WellFormedBehind(t, 5);
    }
  }

  lemma {:induction false} ItemsLength(items: seq<Json>)
    requires items != []
    ensures |Compact(Arr(items))|
         == |Compact(items[0])| + if |items| == 1 then 2 else 1 + |Compact(Arr(items[1..]))|
  {
    assert |Compact(Arr(items))| == 2 + |SerializeItems(items, [], [])|;
    if |items| > 1 {
      assert |Compact(Arr(items[1..]))| == 2 + |SerializeItems(items[1..], [], [])|;
    }
  }

  lemma {:induction false} MembersLength(ms: seq<Member>)
    requires ms != []
    ensures |Compact(Obj(ms))|
         == |Quote(ms[0].key)| + 1 + |Compact(ms[0].value)| + if |ms| == 1 then 2 else 1 + |Compact(Obj(ms[1..]))|
  {
    assert |Compact(Obj(ms))| == 2 + |SerializeMembers(ms, [], [])|;
    assert |SerializeMember(ms[0], [], [])| == |Quote(ms[0].key)| + 1 + |Compact(ms[0].value)|;
    if |ms| > 1 {
      assert |Compact(Obj(ms[1..]))| == 2 + |SerializeMembers(ms[1..], [], [])|;
    }
  }

  /** Any well-formed text that is read as the value takes at least as many units as the compact text. */
  lemma {:induction false} ValueIsShortest(v: Json, text: Text, rest: Text)
    requires IsWellFormed(text) && ParseValue(text) == Ok(v, rest)
    ensures |Compact(v)| <= |text| - |rest|
    ensures IsWellFormed(rest)
    decreases |text|, 0
  {
    var t := SkipSpace(text);
    SkipSpaceShortest(text);
    if t[0] == QUOTE {
      WellFormedBehind(t, 1);
      LiteralIsShortest(v.s, t[1..], rest);
    } else if t[0] == LBRACKET {
      WellFormedBehind(t, 1);
      SkipSpaceShortest(t[1..]);
      var u := SkipSpace(t[1..]);
      if u != [] && u[0] == RBRACKET {
        WellFormedBehind(u, 1);
      } else {
        ItemsAreShortest(v.items, t[1..], rest);
      }
    } else if t[0] == LBRACE {
      WellFormedBehind(t, 1);
      SkipSpaceShortest(t[1..]);
      var u := SkipSpace(t[1..]);
      if u != [] && u[0] == RBRACE {
        WellFormedBehind(u, 1);
      } else {
        MembersAreShortest(v.members, t[1..], rest);
      }
    } else if NULL <= t || TRUE <= t || FALSE <= t {
      ConstantShortest(t);
    } else {
      NumberShortest(t);
    }
  }

  lemma {:induction false} ItemsAreShortest(items: seq<Json>, t: Text, rest: Text)
    requires IsWellFormed(t) && ParseItems(t) == Ok(items, rest)
    ensures items != [] && |Compact(Arr(items))| - 1 <= |t| - |rest|
    ensures IsWellFormed(rest)
    decreases |t|, 1
  {
    hide Serialize, Compact, IsWellFormed;
    var r := ParseValue(t);
    var u := SkipSpace(r.rest);
    ItemsLength(items);
    ValueIsShortest(r.value, t, r.rest);
    SkipSpaceShortest(r.rest);
    WellFormedBehind(u, 1);
    if u[0] == COMMA {
      ItemsAreShortest(items[1..], u[1..], rest);
    }
  }

  lemma {:induction false} KeyIsShortest(t: Text)
    requires IsWellFormed(t) && ParseKey(t).Ok?
    ensures var r := ParseKey(t); |Quote(r.value)| + 1 <= |t| - |r.rest| && IsWellFormed(r.rest)
  {
    var u := SkipSpace(t);
    SkipSpaceShortest(t);
    WellFormedBehind(u, 1);
    var r := ParseString(u[1..]);
    LiteralIsShortest(r.value, u[1..], r.rest);
    SkipSpaceShortest(r.rest);
    WellFormedBehind(SkipSpace(r.rest), 1);
  }

  lemma {:induction false} MembersAreShortest(ms: seq<Member>, t: Text, rest: Text)
    requires IsWellFormed(t) && ParseMembers(t) == Ok(ms, rest)
    ensures ms != [] && |Compact(Obj(ms))| - 1 <= |t| - |rest|
    ensures IsWellFormed(rest)
    decreases |t|, 1
  {
    hide Serialize, Compact, Quote, IsWellFormed, ParseKey;
    var k := ParseKey(t);
    var r := ParseValue(k.rest);
    MembersLength(ms);
    var u := SkipSpace(r.rest);
    KeyIsShortest(t);
    ValueIsShortest(r.value, k.rest, r.rest);
    SkipSpaceShortest(r.rest);
    WellFormedBehind(u, 1);
    if u[0] == COMMA {
      MembersAreShortest(ms[1..], u[1..], rest);
    }
  }
}
