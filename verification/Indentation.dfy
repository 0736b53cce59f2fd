/** Where the indented form has whitespace, and exactly how much: convert.ts writes it with a gap of two spaces. */
module Indentation {
  import opened JsText
  import opened Json
  import opened Stringify
  import opened Parse
  import opened RoundTrip
  import opened Layout

  // ---------- The layout, as a scanner with a stack of open brackets ----------

  /** What was read last, outside string literals and apart from whitespace. */
  datatype Last = Opening | Comma | Colon | Other

  /** `space` is the whitespace read since then. */
  datatype State = Broken | At(open: seq<CodeUnit>, last: Last, space: Text, zone: Zone)

  function Spaces(n: nat): Text {
    seq(n, i => SPACE)
  }

  function LineBreak(depth: nat): Text {
    [LF] + Spaces(2 * depth)
  }

  /** The bracket that a closing bracket closes. */
  function Opener(c: CodeUnit): Option<CodeUnit> {
    match c
    case 0x5D => Some(LBRACKET)
    case 0x7D => Some(LBRACE)
    case _ => None
  }

  /** The whitespace in front of `next`, where `depth` brackets are open. There is none in an empty container;
      a line break behind an opening bracket, behind a comma, and in front of a closing bracket, which is itself
      one level less deep; one space behind a colon; and none anywhere else. */
  function Whitespace(last: Last, next: CodeUnit, depth: nat): Text {
    if Opener(next).Some? then (if last == Opening || depth == 0 then [] else LineBreak(depth - 1))
    else match last
      case Opening => LineBreak(depth)
      case Comma => LineBreak(depth)
      case Colon => [SPACE]
      case Other => []
  }

  /** One unit outside string literals that is not whitespace. */
  function Read(open: seq<CodeUnit>, c: CodeUnit): State {
    if c == QUOTE then At(open, Other, [], Inside)
    else if c == LBRACKET || c == LBRACE then At([c] + open, Opening, [], Outside)
    else if Opener(c).Some? then
      if open != [] && open[0] == Opener(c).value then At(open[1..], Other, [], Outside) else Broken
    else At(open, if c == COMMA then Comma else if c == COLON then Colon else Other, [], Outside)
  }

  function Advance(s: State, c: CodeUnit): State {
    match s
    case Broken => Broken
    case At(open, last, space, zone) =>
      if zone != Outside then At(open, last, space, Step(zone, c))
      else if IsSpace(c) then At(open, last, space + [c], zone)
      else if space != Whitespace(last, c, |open|) then Broken
      else Read(open, c)
  }

  function Scan(s: State, t: Text): State
    decreases |t|
  {
    if t == [] then s else Scan(Advance(s, t[0]), t[1..])
  }

  const START := At([], Other, [], Outside)

  /** All whitespace outside string literals is as it should be, and all brackets are closed. */
  predicate IsIndented(t: Text) {
    Scan(START, t) == START
  }

  lemma {:induction false} ScanConcat(s: State, a: Text, b: Text)
    ensures Scan(s, a + b) == Scan(Scan(s, a), b)
    decreases |a|
  {
    if a == [] {
      assert a + b == b;
    } else {
      assert (a + b)[1..] == a[1..] + b;
      ScanConcat(Advance(s, a[0]), a[1..], b);
    }
  }

  lemma {:induction false} StaysBroken(t: Text)
    ensures Scan(Broken, t) == Broken
  {
    if t != [] {
      StaysBroken(t[1..]);
    }
  }

  // ---------- The pieces of a serialization ----------

  lemma {:induction false} ScanSpace(open: seq<CodeUnit>, last: Last, space: Text, w: Text)
    requires AllSpace(w)
    ensures Scan(At(open, last, space, Outside), w) == At(open, last, space + w, Outside)
    decreases |w|
  {
    if w == [] {
      assert space + w == space;
    } else {
      ScanSpace(open, last, space + [w[0]], w[1..]);
      assert (space + [w[0]]) + w[1..] == space + w;
    }
  }

  lemma {:induction false} ScanOne(s: State, c: CodeUnit)
    ensures Scan(s, [c]) == Advance(s, c)
  {
    assert [c][1..] == [];
  }

  lemma {:induction false} ScanInside(open: seq<CodeUnit>, t: Text)
    requires QUOTE !in t && BACKSLASH !in t
    ensures Scan(At(open, Other, [], Inside), t) == At(open, Other, [], Inside)
  {
    if t != [] {
      ScanInside(open, t[1..]);
    }
  }

  lemma {:induction false} ScanEscapeUnit(open: seq<CodeUnit>, c: CodeUnit)
    ensures Scan(At(open, Other, [], Inside), EscapeUnit(c)) == At(open, Other, [], Inside)
  {
    var e := EscapeUnit(c);
    if e[0] == BACKSLASH {
      assert e == [e[0]] + ([e[1]] + e[2..]);
      ScanConcat(At(open, Other, [], Inside), [e[0]], [e[1]] + e[2..]);
      ScanOne(At(open, Other, [], Inside), e[0]);
      ScanConcat(At(open, Other, [], Escaped), [e[1]], e[2..]);
      ScanOne(At(open, Other, [], Escaped), e[1]);
    }
    ScanInside(open, if e[0] == BACKSLASH then e[2..] else e);
  }

  lemma {:induction false} ScanEscape(open: seq<CodeUnit>, s: Text)
    ensures Scan(At(open, Other, [], Inside), Escape(s)) == At(open, Other, [], Inside)
    decreases |s|
  {
    if s == [] {
    } else if |s| >= 2 && IsHighSurrogate(s[0]) && IsLowSurrogate(s[1]) {
      ScanInside(open, s[..2]);
      ScanEscape(open, s[2..]);
      ScanConcat(At(open, Other, [], Inside), s[..2], Escape(s[2..]));
    } else {
      ScanEscapeUnit(open, s[0]);
      ScanEscape(open, s[1..]);
      ScanConcat(At(open, Other, [], Inside), EscapeUnit(s[0]), Escape(s[1..]));
    }
  }

  /** In front of anything but a closing bracket, with the right whitespace read. */
  function Before(open: seq<CodeUnit>, last: Last): State {
    At(open, last, Whitespace(last, QUOTE, |open|), Outside)
  }

  function Behind(open: seq<CodeUnit>): State {
    At(open, Other, [], Outside)
  }

  lemma {:induction false} ScanQuote(open: seq<CodeUnit>, last: Last, s: Text)
    ensures Scan(Before(open, last), Quote(s)) == Behind(open)
  {
    Regroup3([QUOTE], Escape(s), [QUOTE]);
    ScanConcat(Before(open, last), [QUOTE], Escape(s) + [QUOTE]);
    ScanOne(Before(open, last), QUOTE);
    ScanEscape(open, s);
    ScanConcat(At(open, Other, [], Inside), Escape(s), [QUOTE]);
    ScanOne(At(open, Other, [], Inside), QUOTE);
  }

  /** A unit that is neither whitespace nor has a meaning of its own. */
  predicate IsOrdinary(c: CodeUnit) {
    !IsSpace(c) && c !in {QUOTE, LBRACKET, RBRACKET, LBRACE, RBRACE, COMMA, COLON}
  }

  lemma {:induction false} ScanOrdinary(open: seq<CodeUnit>, last: Last, t: Text)
    requires t != [] && forall i :: 0 <= i < |t| ==> IsOrdinary(t[i])
    ensures Scan(Before(open, last), t) == Behind(open)
    decreases |t|
  {
    assert Advance(Before(open, last), t[0]) == Behind(open);
    assert Before(open, Other) == Behind(open);
    if |t| > 1 {
      ScanOrdinary(open, Other, t[1..]);
    }
  }

  lemma {:induction false} ScalarIsOrdinary(v: Json)
    requires v.Null? || v.Bool? || v.Num?
    ensures Compact(v) != [] && forall i :: 0 <= i < |Compact(v)| ==> IsOrdinary(Compact(v)[i])
  {
    if v.Num? {
      assert IsNumeral(v.numeral);
      NumeralNotEmpty(v.numeral);
    }
  }

  const GAP: Text := [SPACE, SPACE]

  lemma {:induction false} DeeperBreak(depth: nat)
    ensures Deeper(GAP, Spaces(2 * depth)) == Spaces(2 * (depth + 1))
    ensures Break(GAP, Spaces(2 * depth)) == LineBreak(depth) && AllSpace(LineBreak(depth))
  {
  }

  /** An opening bracket and the line break behind it. */
  lemma {:induction false} ScanOpening(open: seq<CodeUnit>, last: Last, c: CodeUnit)
    requires c == LBRACKET || c == LBRACE
    ensures Scan(Before(open, last), [c] + LineBreak(|open| + 1)) == Before([c] + open, Opening)
  {
    DeeperBreak(|open| + 1);
    ScanConcat(Before(open, last), [c], LineBreak(|open| + 1));
    ScanOne(Before(open, last), c);
    ScanSpace([c] + open, Opening, [], LineBreak(|open| + 1));
    assert [] + LineBreak(|open| + 1) == LineBreak(|open| + 1);
  }

  /** A comma and the line break behind it. */
  lemma {:induction false} ScanComma(open: seq<CodeUnit>)
    ensures Scan(Behind(open), [COMMA] + LineBreak(|open|)) == Before(open, Comma)
  {
    DeeperBreak(|open|);
    ScanConcat(Behind(open), [COMMA], LineBreak(|open|));
    ScanOne(Behind(open), COMMA);
    ScanSpace(open, Comma, [], LineBreak(|open|));
    assert [] + LineBreak(|open|) == LineBreak(|open|);
  }

  lemma {:induction false} ScanColon(open: seq<CodeUnit>)
    ensures Scan(Behind(open), [COLON, SPACE]) == Before(open, Colon)
  {
    assert [COLON, SPACE] == [COLON] + [SPACE];
    ScanConcat(Behind(open), [COLON], [SPACE]);
    ScanOne(Behind(open), COLON);
    ScanOne(At(open, Colon, [], Outside), SPACE);
    assert [] + [SPACE] == [SPACE];
  }

  /** The line break in front of a closing bracket, and the bracket. */
  lemma {:induction false} ScanClosing(open: seq<CodeUnit>, c: CodeUnit)
    requires Opener(c).Some?
    ensures Scan(Behind([Opener(c).value] + open), LineBreak(|open|) + [c]) == Behind(open)
  {
    var inner := [Opener(c).value] + open;
    DeeperBreak(|open|);
    ScanConcat(Behind(inner), LineBreak(|open|), [c]);
    ScanSpace(inner, Other, [], LineBreak(|open|));
    assert [] + LineBreak(|open|) == LineBreak(|open|);
    ScanOne(At(inner, Other, LineBreak(|open|), Outside), c);
    assert inner[1..] == open;
  }

  lemma {:induction false} ScanEmpty(open: seq<CodeUnit>, last: Last, c: CodeUnit)
    requires Opener(c).Some?
    ensures Scan(Before(open, last), [Opener(c).value, c]) == Behind(open)
  {
    var o := Opener(c).value;
    assert [o, c] == [o] + [c];
    ScanConcat(Before(open, last), [o], [c]);
    ScanOne(Before(open, last), o);
    ScanOne(At([o] + open, Opening, [], Outside), c);
    assert ([o] + open)[1..] == open;
  }

  // ---------- Values ----------

  lemma {:induction false} ScanBracketed(open: seq<CodeUnit>, last: Last, body: Text, c: CodeUnit)
    requires Opener(c).Some?
    requires Scan(Before([Opener(c).value] + open, Opening), body) == Behind([Opener(c).value] + open)
    ensures Scan(Before(open, last),
                 [Opener(c).value] + (LineBreak(|open| + 1) + body) + (LineBreak(|open|) + [c])) == Behind(open)
  {
    var o, d := Opener(c).value, |open|;
    ScanOpening(open, last, o);
    ScanClosing(open, c);
    Regroup3([o], LineBreak(d + 1), body);
    ScanConcat(Before(open, last), [o] + LineBreak(d + 1), body);
    ScanConcat(Before(open, last), [o] + (LineBreak(d + 1) + body), LineBreak(d) + [c]);
  }

  lemma {:induction false} ScanEntries(open: seq<CodeUnit>, last: Last, first: Text, more: Text)
    requires Scan(Before(open, last), first) == Behind(open)
    requires Scan(Before(open, Comma), more) == Behind(open)
    ensures Scan(Before(open, last), first + ([COMMA] + LineBreak(|open|)) + more) == Behind(open)
  {
    ScanComma(open);
    ScanConcat(Before(open, last), first, [COMMA] + LineBreak(|open|));
    ScanConcat(Before(open, last), first + ([COMMA] + LineBreak(|open|)), more);
  }

  lemma {:induction false} ScanValue(v: Json, open: seq<CodeUnit>, last: Last)
    ensures Scan(Before(open, last), Serialize(v, GAP, Spaces(2 * |open|))) == Behind(open)
    decreases v, 1
  {
    var d := |open|;
    DeeperBreak(d);
    DeeperBreak(d + 1);
    match v {
      case Str(s) => ScanQuote(open, last, s);
      case Arr(items) =>
        if items == [] {
          ScanEmpty(open, last, RBRACKET);
        } else {
          ScanItems(items, [LBRACKET] + open, Opening);
          ScanBracketed(open, last, SerializeItems(items, GAP, Spaces(2 * (d + 1))), RBRACKET);
        }
      case Obj(ms) =>
        if ms == [] {
          ScanEmpty(open, last, RBRACE);
        } else {
          ScanMembers(ms, [LBRACE] + open, Opening);
          ScanBracketed(open, last, SerializeMembers(ms, GAP, Spaces(2 * (d + 1))), RBRACE);
        }
      case _ =>
        ScalarIsOrdinary(v);
        ScanOrdinary(open, last, Compact(v));
    }
  }

  lemma {:induction false} ScanItems(items: seq<Json>, open: seq<CodeUnit>, last: Last)
    requires items != []
    ensures Scan(Before(open, last), SerializeItems(items, GAP, Spaces(2 * |open|))) == Behind(open)
    decreases items, 0
  {
    var indent := Spaces(2 * |open|);
    ScanValue(items[0], open, last);
    if |items| > 1 {
      DeeperBreak(|open|);
      ScanItems(items[1..], open, Comma);
      ScanEntries(open, last, Serialize(items[0], GAP, indent), SerializeItems(items[1..], GAP, indent));
    }
  }

  lemma {:induction false} ScanMember(m: Member, open: seq<CodeUnit>, last: Last)
    ensures Scan(Before(open, last), SerializeMember(m, GAP, Spaces(2 * |open|))) == Behind(open)
    decreases m, 0
  {
    var text := Serialize(m.value, GAP, Spaces(2 * |open|));
    ScanQuote(open, last, m.key);
    ScanColon(open);
    ScanValue(m.value, open, Colon);
    ScanConcat(Before(open, last), Quote(m.key), [COLON, SPACE]);
    ScanConcat(Before(open, last), Quote(m.key) + [COLON, SPACE], text);
  }

  lemma {:induction false} ScanMembers(ms: seq<Member>, open: seq<CodeUnit>, last: Last)
    requires ms != []
    ensures Scan(Before(open, last), SerializeMembers(ms, GAP, Spaces(2 * |open|))) == Behind(open)
    decreases ms, 0
  {
    var indent := Spaces(2 * |open|);
    ScanMember(ms[0], open, last);
    if |ms| > 1 {
      DeeperBreak(|open|);
      ScanMembers(ms[1..], open, Comma);
      ScanEntries(open, last, SerializeMember(ms[0], GAP, indent), SerializeMembers(ms[1..], GAP, indent));
    }
  }

  // ---------- Main results ----------

  /** The indented text of any tree has exactly the whitespace that the layout asks for. */
  lemma {:induction false} PrettyIsIndented(v: Json)
    ensures IsIndented(Pretty(v))
  {
    ScanValue(v, [], Other);
    assert Spaces(0) == [];
    assert Before([], Other) == START;
  }

  lemma {:induction false} StripFirst(z: Zone, t: Text)
    requires t != [] && !(z == Outside && IsSpace(t[0]))
    ensures Strip(z, t) != [] && Strip(z, t)[0] == t[0] && Strip(z, t)[1..] == Strip(Step(z, t[0]), t[1..])
  {
  }

  /** From the same place, and apart from whitespace, there is one way only to go on to the end. */
  lemma {:induction false} SameWhenStripped(s: State, s': State, a: Text, b: Text)
    requires s.At? && s'.At? && s' == s.(space := s'.space)
    requires s.zone != Outside ==> s == s'
    requires Scan(s, a) == START && Scan(s', b) == START
    requires Strip(s.zone, a) == Strip(s.zone, b)
    ensures s.space + a == s'.space + b
    decreases |a| + |b|
  {
    if a != [] && s.zone == Outside && IsSpace(a[0]) {
      SameWhenStripped(Advance(s, a[0]), s', a[1..], b);
      assert (s.space + [a[0]]) + a[1..] == s.space + a;
    } else if b != [] && s.zone == Outside && IsSpace(b[0]) {
      SameWhenStripped(s, Advance(s', b[0]), a, b[1..]);
      assert (s'.space + [b[0]]) + b[1..] == s'.space + b;
    } else if a != [] && b != [] {
      StripFirst(s.zone, a);
      StripFirst(s.zone, b);
      StaysBroken(a[1..]);
      StaysBroken(b[1..]);
      var next := Advance(s, a[0]);
      assert next == Advance(s', b[0]) && s.space == s'.space;
      SameWhenStripped(next, next, a[1..], b[1..]);
      assert (next.space + a[1..])[|next.space|..] == a[1..];
      assert (next.space + b[1..])[|next.space|..] == b[1..];
      assert a == [a[0]] + a[1..] && b == [b[0]] + b[1..];
    } else {
      assert a == [] && b == [];
    }
  }

  /** The indented text is the only text that has this layout and is the compact text apart from it. */
  lemma {:induction false} PrettyIsTheIndentedForm(v: Json, t: Text)
    ensures t == Pretty(v) <==> IsIndented(t) && Strip(Outside, t) == Compact(v)
  {
    PrettyIsIndented(v);
    StripPretty(v);
    if IsIndented(t) && Strip(Outside, t) == Compact(v) {
      SameWhenStripped(START, START, t, Pretty(v));
      assert [] + t == t && [] + Pretty(v) == Pretty(v);
    }
  }
}
