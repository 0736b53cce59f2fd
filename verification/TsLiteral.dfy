/** Single-quoted string literals as TypeScript reads them, section 12.8.4 of ECMA-262 (2021), in module code. */
module TsLiteral {
  import opened JsText
  import opened Json
  import opened Parse
  import opened TsType

  /** What an escape stands for, and how many units it takes. */
  datatype Escape = Escape(cooked: Text, length: nat)

  function Utf16(c: nat): Text
    requires c <= 0x10FFFF
  {
    if c < 0x1_0000 then [c] else [0xD800 + (c - 0x1_0000) / 0x400, 0xDC00 + (c - 0x1_0000) % 0x400]
  }

  /** The rest of `\u{...}`, behind digits of the given value. */
  function ReadBraced(t: Text, value: nat): (r: Option<Escape>)
    requires value <= 0x10FFFF
    ensures r.Some? ==> 1 <= r.value.length <= |t| && |r.value.cooked| <= 2 && APOSTROPHE !in t[..r.value.length]
  {
    if t == [] then None
    else if t[0] == RBRACE then Some(Escape(Utf16(value), 1))
    else
      match HexValue(t[0])
      case None => None
      case Some(d) =>
        if 16 * value + d > 0x10FFFF then None
        else match ReadBraced(t[1..], 16 * value + d)
          case None => None
          case Some(e) => Some(Escape(e.cooked, e.length + 1))
  }

  /** `\xhh` and `\uhhhh`, given the value of the digits. */
  function HexEscape(t: Text, digits: nat): (r: Option<Escape>)
    requires digits in {2, 4}
    ensures r.Some? ==> r.value.length == 2 + digits <= |t| && |r.value.cooked| == 1
    ensures r.Some? ==> forall i :: 2 <= i < 2 + digits ==> t[i] != APOSTROPHE
  {
    if |t| < 2 + digits || exists i | 2 <= i < 2 + digits :: HexValue(t[i]).None? then None
    else
      var last := 16 * HexValue(t[digits]).value + HexValue(t[digits + 1]).value;
      if digits == 2 then Some(Escape([last], 4))
      else Some(Escape([0x1000 * HexValue(t[2]).value + 0x100 * HexValue(t[3]).value + last], 6))
  }

  /** The unit that `\` and a letter stand for. */
  function LetterEscape(c: CodeUnit): CodeUnit {
    match c
    case 0x62 => 0x08
    case 0x74 => 0x09
    case 0x6E => 0x0A
    case 0x76 => 0x0B
    case 0x66 => 0x0C
    case 0x72 => 0x0D
    case _ => c
  }

  /** The escape at the front of the text. It is longer than what it stands for; and only `\'` holds a quote. */
  function ReadEscape(t: Text): (r: Option<Escape>)
    requires t != [] && t[0] == BACKSLASH
    ensures r.Some? ==> |r.value.cooked| < r.value.length <= |t| && r.value.length >= 2
    ensures r.Some? && t[1] == APOSTROPHE ==> r.value.cooked == [APOSTROPHE]
    ensures r.Some? && t[1] != APOSTROPHE ==> APOSTROPHE !in t[..r.value.length]
  {
    if |t| < 2 then None
    else if t[1] in {LF, 0x2028, 0x2029} then Some(Escape([], 2))
    else if t[1] == CR then Some(Escape([], if |t| > 2 && t[2] == LF then 3 else 2))
    else if t[1] == 0x30 && (|t| == 2 || !IsDigit(t[2])) then Some(Escape([0], 2))
    else if IsDigit(t[1]) then None
    else if t[1] == 0x78 then HexEscape(t, 2)
    else if t[1] == 0x75 && |t| > 3 && t[2] == LBRACE && t[3] != RBRACE then
      match ReadBraced(t[3..], 0)
      case None => None
      case Some(e) => Some(Escape(e.cooked, e.length + 3))
    else if t[1] == 0x75 then HexEscape(t, 4)
    else Some(Escape([LetterEscape(t[1])], 2))
  }

  /** The rest of a literal, up to its closing quote: what it stands for. A line break ends the attempt. */
  function ReadQuoted(t: Text): (r: Parsed<Text>)
    ensures r.Ok? ==> |r.rest| < |t|
    decreases |t|
  {
    if t == [] || t[0] == LF || t[0] == CR then Fail
    else if t[0] == APOSTROPHE then Ok([], t[1..])
    else if t[0] == BACKSLASH then
      match ReadEscape(t)
      case None => Fail
      case Some(e) =>
        var (s, rest) :- ReadQuoted(t[e.length..]);
        Ok(e.cooked + s, rest)
    else
      var (s, rest) :- ReadQuoted(t[1..]);
      Ok([t[0]] + s, rest)
  }

  function ReadLiteral(t: Text): (r: Parsed<Text>)
    ensures r.Ok? ==> |r.rest| < |t|
  {
    if t != [] && t[0] == APOSTROPHE then ReadQuoted(t[1..]) else Fail
  }

  // ---------- A string quoted as it is ----------

  /** The reader gives the value back and stops before `k`; or, if the strings are not clean, it gives
      back something else or nothing. */
  predicate Recovers<T(==)>(r: Parsed<T>, value: T, k: Text, clean: bool) {
    if clean then r == Ok(value, k) else r.Ok? ==> r.value != value
  }

  lemma InPrefix(t: Text, n: nat)
    requires n <= |t|
    ensures forall i :: 0 <= i < n ==> t[i] in t[..n]
  {
    assert forall i :: 0 <= i < n ==> t[..n][i] == t[i];
  }

  /** An escape other than `\'` ends before the closing quote. */
  lemma {:induction false} EscapeInside(s: Text, k: Text)
    requires s != [] && s[0] == BACKSLASH
    ensures var t := s + ([APOSTROPHE] + k);
      ReadEscape(t).Some? && t[1] != APOSTROPHE ==>
        var n := ReadEscape(t).value.length;
        n <= |s| && APOSTROPHE !in s[..n] && t[n..] == s[n..] + ([APOSTROPHE] + k)
  {
    var t := s + ([APOSTROPHE] + k);
    if ReadEscape(t).Some? && t[1] != APOSTROPHE {
      var n := ReadEscape(t).value.length;
      assert t[|s|] == APOSTROPHE;
      InPrefix(t, n);
      assert s[..n] == t[..n];
    }
  }

  lemma Behind(w: Text, a: Text, b: Text, n: nat)
    requires n < |a| && APOSTROPHE !in w + a
    ensures (w + (a + b))[n..] == (w + a)[n..] + b
    ensures w != [] ==> (w + a)[n..] != []
    ensures APOSTROPHE !in (w + a)[n..]
  {
  }

  /** A reader that has fallen behind, so that it still has to give `w` for what it has already consumed,
      never catches up. For `w` holds no quote, and each unit it gives brings at least one unit to wait for. */
  lemma {:induction false} NeverCatchesUp(w: Text, u: Text, k: Text)
    requires w != [] && APOSTROPHE !in w
    ensures var r := ReadQuoted(u + ([APOSTROPHE] + k)); r.Ok? ==> r.value != w + u
    decreases |u|
  {
    var t := u + ([APOSTROPHE] + k);
    if u == [] {
      assert t[0] == APOSTROPHE;
    } else if u[0] == BACKSLASH {
      EscapeInside(u, k);
      if ReadEscape(t).Some? {
        var e := ReadEscape(t).value;
        assert (w + u)[0] == w[0];
        if t[1] != APOSTROPHE {
          var a, b := u[..e.length], u[e.length..];
          assert u == a + b;
          Behind(w, a, b, |e.cooked|);
          NeverCatchesUp((w + a)[|e.cooked|..], b, k);
          GivenFirst(e.cooked, ReadQuoted(t[e.length..]), w + u);
        }
      }
    } else if !IsSpecial(u[0]) {
      assert t[1..] == u[1..] + ([APOSTROPHE] + k);
      assert u == [u[0]] + u[1..];
      assert APOSTROPHE !in w + [u[0]];
      assert (w + u)[1..] == (w[1..] + [u[0]]) + u[1..];
      NeverCatchesUp(w[1..] + [u[0]], u[1..], k);
      GivenFirst([u[0]], ReadQuoted(t[1..]), w + u);
    }
  }

  /** What is left to give of `s` once `y` has been given. */
  lemma GivenFirst(y: Text, r: Parsed<Text>, s: Text)
    ensures r.Ok? && y + r.value == s ==> |y| <= |s| && r.value == s[|y|..]
  {
    if r.Ok? {
      assert (y + r.value)[|y|..] == r.value;
    }
  }

  /** A string that holds a quote, a backslash or a line break, quoted as it is, is never read as itself. */
  lemma {:induction false} UncleanIsMisread(s: Text, k: Text)
    requires !Clean(s)
    ensures var r := ReadQuoted(s + ([APOSTROPHE] + k)); r.Ok? ==> r.value != s
  {
    var t := s + ([APOSTROPHE] + k);
    if s[0] == BACKSLASH {
      EscapeInside(s, k);
      if ReadEscape(t).Some? && t[1] != APOSTROPHE {
        var e := ReadEscape(t).value;
        var a, b := s[..e.length], s[e.length..];
        assert s == a + b && [] + a == a;
        Behind([], a, b, |e.cooked|);
        assert s[|e.cooked|..] == a[|e.cooked|..] + b;
        NeverCatchesUp(a[|e.cooked|..], b, k);
        GivenFirst(e.cooked, ReadQuoted(t[e.length..]), s);
      }
    } else if !IsSpecial(s[0]) {
      assert t[1..] == s[1..] + ([APOSTROPHE] + k);
      UncleanIsMisread(s[1..], k);
    }
  }

  lemma {:induction false} CleanIsRead(s: Text, k: Text)
    requires Clean(s)
    ensures ReadQuoted(s + ([APOSTROPHE] + k)) == Ok(s, k)
  {
    var t := s + ([APOSTROPHE] + k);
    if s == [] {
      assert t == [APOSTROPHE] + k;
    } else {
      assert t[1..] == s[1..] + ([APOSTROPHE] + k);
      CleanIsRead(s[1..], k);
      assert [s[0]] + s[1..] == s;
    }
  }

  /** A quoted string is read back exactly when it is clean, whatever stands behind it. */
  lemma {:induction false} QuotedReadsBack(s: Text, k: Text)
    ensures Recovers(ReadLiteral(([APOSTROPHE] + s + [APOSTROPHE]) + k), s, k, Clean(s))
  {
    Regroup4([APOSTROPHE], s, [APOSTROPHE], k);
    assert ([APOSTROPHE] + (s + ([APOSTROPHE] + k)))[1..] == s + ([APOSTROPHE] + k);
    if Clean(s) {
      CleanIsRead(s, k);
    } else {
      UncleanIsMisread(s, k);
    }
  }

  // ---------- A string quoted with escapes ----------

  function EscapedUnit(c: CodeUnit): Text {
    if c == LF then [BACKSLASH, 0x6E]
    else if c == CR then [BACKSLASH, 0x72]
    else if IsSpecial(c) then [BACKSLASH, c]
    else [c]
  }

  lemma {:induction false} EscapedUnitReadsBack(c: CodeUnit, k: Text)
    ensures var r := ReadQuoted(EscapedUnit(c) + k);
      r == if ReadQuoted(k).Ok? then Ok([c] + ReadQuoted(k).value, ReadQuoted(k).rest) else Fail
  {
    var t := EscapedUnit(c) + k;
    assert t[|EscapedUnit(c)|..] == k;
    assert t[0] == EscapedUnit(c)[0];
    if IsSpecial(c) {
      assert t[1] == EscapedUnit(c)[1];
      assert ReadEscape(t) == Some(Escape([c], 2));
    }
  }

  /** Every string has a literal that is read as it. So where a string is not recovered, the quoting is to blame. */
  lemma {:induction false} EscapedReadsBack(s: Text, k: Text)
    ensures ReadQuoted(ConcatMap(EscapedUnit, s) + ([APOSTROPHE] + k)) == Ok(s, k)
  {
    if s == [] {
      assert ConcatMap(EscapedUnit, s) + ([APOSTROPHE] + k) == [APOSTROPHE] + k;
    } else {
      var later := ConcatMap(EscapedUnit, s[1..]);
      EscapedReadsBack(s[1..], k);
      EscapedUnitReadsBack(s[0], later + ([APOSTROPHE] + k));
      Regroup3(EscapedUnit(s[0]), later, [APOSTROPHE] + k);
      assert [s[0]] + s[1..] == s;
    }
  }
}
