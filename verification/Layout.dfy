/** What the whitespace of the indented form does: nothing to the meaning, everything to the patterns. */
module Layout {
  import opened JsText
  import opened Json
  import opened Stringify
  import opened Parse
  import opened RoundTrip
  import opened ReplaceText
  import opened Substitution
  import opened Rewriting

  // ---------- Which positions are inside a string literal ----------

  datatype Zone = Outside | Inside | Escaped

  function Step(z: Zone, c: CodeUnit): Zone {
    match z
    case Outside => if c == QUOTE then Inside else Outside
    case Inside => if c == BACKSLASH then Escaped else if c == QUOTE then Outside else Inside
    case Escaped => Inside
  }

  /** The zone after reading `t`. */
  function Run(z: Zone, t: Text): Zone
    decreases |t|
  {
    if t == [] then z else Run(Step(z, t[0]), t[1..])
  }

  /** `t` without the whitespace that is outside string literals. */
  function Strip(z: Zone, t: Text): Text
    decreases |t|
  {
    if t == [] then []
    else
      var rest := Strip(Step(z, t[0]), t[1..]);
      if z == Outside && IsSpace(t[0]) then rest else [t[0]] + rest
  }

  lemma {:induction false} RunConcat(z: Zone, a: Text, b: Text)
    ensures Run(z, a + b) == Run(Run(z, a), b)
    ensures Strip(z, a + b) == Strip(z, a) + Strip(Run(z, a), b)
    decreases |a|
  {
    if a == [] {
      assert a + b == b;
    } else {
      assert (a + b)[1..] == a[1..] + b;
      RunConcat(Step(z, a[0]), a[1..], b);
    }
  }

  /** `t` begins and ends outside string literals, and strips to `core`. */
  predicate StripsTo(t: Text, core: Text) {
    Run(Outside, t) == Outside && Strip(Outside, t) == core
  }

  lemma {:induction false} StripsConcat(a: Text, a': Text, b: Text, b': Text)
    requires StripsTo(a, a') && StripsTo(b, b')
    ensures StripsTo(a + b, a' + b')
  {
    RunConcat(Outside, a, b);
  }

  lemma {:induction false} StripsSpace(w: Text)
    requires AllSpace(w)
    ensures StripsTo(w, [])
  {
    if w != [] {
      StripsSpace(w[1..]);
    }
  }

  lemma {:induction false} StripsPlain(t: Text)
    requires forall i :: 0 <= i < |t| ==> t[i] != QUOTE && !IsSpace(t[i])
    ensures StripsTo(t, t)
  {
    if t != [] {
      StripsPlain(t[1..]);
      assert [t[0]] + t[1..] == t;
    }
  }

  lemma {:induction false} EscapeStartStaysInside(letter: CodeUnit)
    ensures Run(Inside, [BACKSLASH, letter]) == Inside && Strip(Inside, [BACKSLASH, letter]) == [BACKSLASH, letter]
  {
    var t: Text := [BACKSLASH, letter];
    assert t[1..] == [letter];
    assert [letter][1..] == [];
    assert Run(Escaped, [letter]) == Run(Inside, []) == Inside;
    assert Strip(Escaped, [letter]) == [letter] + Strip(Inside, []);
    assert Strip(Inside, t) == [BACKSLASH] + Strip(Escaped, [letter]);
  }

  lemma {:induction false} EscapeUnitStaysInside(c: CodeUnit)
    ensures Run(Inside, EscapeUnit(c)) == Inside && Strip(Inside, EscapeUnit(c)) == EscapeUnit(c)
  {
    if ShortEscape(c).Some? {
      EscapeStartStaysInside(ShortEscape(c).value);
    } else if c < 0x20 || IsHighSurrogate(c) || IsLowSurrogate(c) {
      RunConcat(Inside, [BACKSLASH, 0x75], Hex4(c));
      EscapeStartStaysInside(0x75);
      InsidePlain(Hex4(c));
    } else {
      assert EscapeUnit(c)[1..] == [];
    }
  }

  lemma {:induction false} InsidePlain(t: Text)
    requires forall i :: 0 <= i < |t| ==> t[i] != QUOTE && t[i] != BACKSLASH
    ensures Run(Inside, t) == Inside && Strip(Inside, t) == t
  {
    if t != [] {
      InsidePlain(t[1..]);
      assert [t[0]] + t[1..] == t;
    }
  }

  lemma {:induction false} EscapeStaysInside(s: Text)
    ensures Run(Inside, Escape(s)) == Inside && Strip(Inside, Escape(s)) == Escape(s)
    decreases |s|
  {
    if s == [] {
    } else if |s| >= 2 && IsHighSurrogate(s[0]) && IsLowSurrogate(s[1]) {
      InsidePlain(s[..2]);
      EscapeStaysInside(s[2..]);
      RunConcat(Inside, s[..2], Escape(s[2..]));
    } else {
      EscapeUnitStaysInside(s[0]);
      EscapeStaysInside(s[1..]);
      RunConcat(Inside, EscapeUnit(s[0]), Escape(s[1..]));
    }
  }

  /** A string literal is left at its end and not before, and keeps its own whitespace. */
  lemma {:induction false} StripsQuote(s: Text)
    ensures StripsTo(Quote(s), Quote(s))
  {
    EscapeStaysInside(s);
    RunConcat(Inside, Escape(s), [QUOTE]);
    RunConcat(Outside, [QUOTE], Escape(s) + [QUOTE]);
    Regroup3([QUOTE], Escape(s), [QUOTE]);
  }

  // ---------- Stripping the indented form ----------

  lemma {:induction false} StripsScalar(v: Json)
    requires v.Null? || v.Bool? || v.Num?
    ensures StripsTo(Compact(v), Compact(v))
  {
    if v.Num? {
      assert IsNumeral(v.numeral);
    }
    StripsPlain(Compact(v));
  }

  /** A bracketed body whose breaks are dropped. */
  lemma {:induction false} StripsBracketed(open: CodeUnit, w: Text, body: Text, core: Text, w': Text, close: CodeUnit)
    requires open != QUOTE && !IsSpace(open) && close != QUOTE && !IsSpace(close)
    requires AllSpace(w) && AllSpace(w') && StripsTo(body, core)
    ensures StripsTo([open] + (w + body) + (w' + [close]), [open] + core + [close])
  {
    StripsPlain([open]);
    StripsPlain([close]);
    StripsSpace(w);
    StripsSpace(w');
    StripsConcat(w, [], body, core);
    assert [] + core == core;
    StripsConcat([open], [open], w + body, core);
    StripsConcat(w', [], [close], [close]);
    assert [] + [close] == [close];
    StripsConcat([open] + (w + body), [open] + core, w' + [close], [close]);
  }

  /** An entry, its comma and break, and the other entries. */
  lemma {:induction false} StripsEntries(first: Text, core: Text, w: Text, more: Text, cores: Text)
    requires AllSpace(w) && StripsTo(first, core) && StripsTo(more, cores)
    ensures StripsTo(first + ([COMMA] + w) + more, core + ([COMMA] + cores))
  {
    StripsPlain([COMMA]);
    StripsSpace(w);
    StripsConcat([COMMA], [COMMA], w, []);
    assert [COMMA] + [] == [COMMA];
    StripsConcat(first, core, [COMMA] + w, [COMMA]);
    StripsConcat(first + ([COMMA] + w), core + [COMMA], more, cores);
    Regroup3(core, [COMMA], cores);
  }

  lemma {:induction false} StripSerialized(v: Json, gap: Text, indent: Text)
    requires AllSpace(gap) && AllSpace(indent)
    ensures StripsTo(Serialize(v, gap, indent), Compact(v))
    decreases v, 1
  {
    BreakIsSpace(gap, indent);
    var inner := Deeper(gap, indent);
    match v {
      case Str(s) => StripsQuote(s);
      case Arr(items) =>
        if items == [] {
          StripsPlain([LBRACKET, RBRACKET]);
        } else {
          StripItems(items, gap, inner);
          CompactArr(items);
          BreakIsSpace(gap, inner);
          StripsBracketed(LBRACKET, Break(gap, inner), SerializeItems(items, gap, inner),
                          CompactItems(items), Break(gap, indent), RBRACKET);
        }
      case Obj(ms) =>
        if ms == [] {
          StripsPlain([LBRACE, RBRACE]);
        } else {
          StripMembers(ms, gap, inner);
          CompactObj(ms);
          BreakIsSpace(gap, inner);
          StripsBracketed(LBRACE, Break(gap, inner), SerializeMembers(ms, gap, inner),
                          CompactMembers(ms), Break(gap, indent), RBRACE);
        }
      case _ => StripsScalar(v);
    }
  }

  lemma {:induction false} StripItems(items: seq<Json>, gap: Text, indent: Text)
    requires items != []
    requires AllSpace(gap) && AllSpace(indent)
    ensures StripsTo(SerializeItems(items, gap, indent), CompactItems(items))
    decreases items, 0
  {
    StripSerialized(items[0], gap, indent);
    if |items| > 1 {
      StripItems(items[1..], gap, indent);
      BreakIsSpace(gap, indent);
      CompactItemsStep(items);
      StripsEntries(Serialize(items[0], gap, indent), Compact(items[0]), Break(gap, indent),
                    SerializeItems(items[1..], gap, indent), CompactItems(items[1..]));
    }
  }

  lemma {:induction false} StripMember(m: Member, gap: Text, indent: Text)
    requires AllSpace(gap) && AllSpace(indent)
    ensures StripsTo(SerializeMember(m, gap, indent), CompactMember(m))
    decreases m, 0
  {
    StripsQuote(m.key);
    StripsPlain([COLON]);
    StripsSpace([SPACE]);
    StripsConcat([COLON], [COLON], [SPACE], []);
    assert [COLON] + [SPACE] == [COLON, SPACE] && [COLON] + [] == [COLON];
    StripsConcat(Quote(m.key), Quote(m.key), Colon(gap), [COLON]);
    StripSerialized(m.value, gap, indent);
    StripsConcat(Quote(m.key) + Colon(gap), Quote(m.key) + [COLON], Serialize(m.value, gap, indent), Compact(m.value));
  }

  lemma {:induction false} StripMembers(ms: seq<Member>, gap: Text, indent: Text)
    requires ms != []
    requires AllSpace(gap) && AllSpace(indent)
    ensures StripsTo(SerializeMembers(ms, gap, indent), CompactMembers(ms))
    decreases ms, 0
  {
    StripMember(ms[0], gap, indent);
    if |ms| > 1 {
      StripMembers(ms[1..], gap, indent);
      BreakIsSpace(gap, indent);
      CompactMembersStep(ms);
      StripsEntries(SerializeMember(ms[0], gap, indent), CompactMember(ms[0]), Break(gap, indent),
                    SerializeMembers(ms[1..], gap, indent), CompactMembers(ms[1..]));
    }
  }

  /** Deleting the whitespace outside string literals from the indented text gives the compact text. */
  lemma StripPretty(v: Json)
    ensures Strip(Outside, Pretty(v)) == Compact(v)
    ensures Strip(Outside, Compact(v)) == Compact(v)
  {
    StripSerialized(v, [SPACE, SPACE], []);
    StripSerialized(v, [], []);
  }

  // ---------- Patterns in the indented form ----------

  lemma {:induction false} NoOpeningWithoutBrace(a: Text, k: Text)
    requires LBRACE !in a
    ensures NoOpening(a, k)
  {
  }

  lemma {:induction false} SpaceHasNoOpening(w: Text, k: Text)
    requires AllSpace(w)
    ensures NoOpening(w, k)
  {
  }

  /** Bracketed text has no opening if its body has none and the open bracket starts none. */
  lemma {:induction false} BracketedHasNoOpening(open: Text, w: Text, body: Text, w': Text, close: Text, k: Text)
    requires AllSpace(w) && AllSpace(w') && LBRACE !in close
    requires NoOpening(open, (w + body) + (w' + close) + k)
    requires NoOpening(body, (w' + close) + k)
    ensures NoOpening(open + (w + body) + (w' + close), k)
  {
    NoOpeningWithoutBrace(close, k);
    SpaceHasNoOpening(w', close + k);
    NoOpeningConcat(w', close, k);
    SpaceHasNoOpening(w, body + ((w' + close) + k));
    NoOpeningConcat(w, body, (w' + close) + k);
    Regroup3(w + body, w' + close, k);
    NoOpeningConcat(open, w + body, (w' + close) + k);
    NoOpeningConcat(open + (w + body), w' + close, k);
  }

  lemma {:induction false} EntriesHaveNoOpening(first: Text, w: Text, more: Text, k: Text)
    requires AllSpace(w)
    requires NoOpening(first, ([COMMA] + w) + (more + k)) && NoOpening(more, k)
    ensures NoOpening(first + ([COMMA] + w) + more, k)
  {
    NoOpeningWithoutBrace([COMMA] + w, more + k);
    NoOpeningConcat(first, [COMMA] + w, more + k);
    NoOpeningConcat(first + ([COMMA] + w), more, k);
  }

  /** Wherever there is a gap, no pattern starts anywhere: a brace is followed by a line break. */
  lemma {:induction false} IndentedHasNoOpening(v: Json, gap: Text, indent: Text, k: Text)
    requires gap != [] && AllSpace(gap) && AllSpace(indent)
    requires Harmless(k)
    ensures NoOpening(Serialize(v, gap, indent), k)
    decreases v, 1
  {
    var inner := Deeper(gap, indent);
    match v {
      case Str(s) => QuoteHasNoOpening(s, k);
      case Arr(items) =>
        if items == [] {
          NoOpeningWithoutBrace([LBRACKET, RBRACKET], k);
        } else {
          var close := Break(gap, indent) + [RBRACKET];
          var body := SerializeItems(items, gap, inner);
          IndentedItemsHaveNoOpening(items, gap, inner, close + k);
          NoOpeningWithoutBrace([LBRACKET], (Break(gap, inner) + body) + close + k);
          BracketedHasNoOpening([LBRACKET], Break(gap, inner), body, Break(gap, indent), [RBRACKET], k);
        }
      case Obj(ms) =>
        if ms == [] {
          assert ([LBRACE, RBRACE] + k)[1] == RBRACE;
        } else {
          var close := Break(gap, indent) + [RBRACE];
          var body := SerializeMembers(ms, gap, inner);
          IndentedMembersHaveNoOpening(ms, gap, inner, close + k);
          assert ([LBRACE] + ((Break(gap, inner) + body) + close + k))[1] == LF;
          BracketedHasNoOpening([LBRACE], Break(gap, inner), body, Break(gap, indent), [RBRACE], k);
        }
      case _ =>
        ScalarHasNoBrace(v);
        NoOpeningWithoutBrace(Compact(v), k);
    }
  }

  lemma {:induction false} IndentedItemsHaveNoOpening(items: seq<Json>, gap: Text, indent: Text, k: Text)
    requires items != []
    requires gap != [] && AllSpace(gap) && AllSpace(indent)
    requires Harmless(k)
    ensures NoOpening(SerializeItems(items, gap, indent), k)
    decreases items, 0
  {
    if |items| == 1 {
      IndentedHasNoOpening(items[0], gap, indent, k);
    } else {
      var more := SerializeItems(items[1..], gap, indent);
      IndentedItemsHaveNoOpening(items[1..], gap, indent, k);
      IndentedHasNoOpening(items[0], gap, indent, ([COMMA] + Break(gap, indent)) + (more + k));
      EntriesHaveNoOpening(Serialize(items[0], gap, indent), Break(gap, indent), more, k);
    }
  }

  lemma {:induction false} IndentedMemberHasNoOpening(m: Member, gap: Text, indent: Text, k: Text)
    requires gap != [] && AllSpace(gap) && AllSpace(indent)
    requires Harmless(k)
    ensures NoOpening(SerializeMember(m, gap, indent), k)
    decreases m, 0
  {
    var text := Serialize(m.value, gap, indent);
    IndentedHasNoOpening(m.value, gap, indent, k);
    NoOpeningWithoutBrace(Colon(gap), text + k);
    QuoteHasNoOpening(m.key, Colon(gap) + (text + k));
    NoOpeningConcat(Quote(m.key), Colon(gap), text + k);
    NoOpeningConcat(Quote(m.key) + Colon(gap), text, k);
  }

  lemma {:induction false} IndentedMembersHaveNoOpening(ms: seq<Member>, gap: Text, indent: Text, k: Text)
    requires ms != []
    requires gap != [] && AllSpace(gap) && AllSpace(indent)
    requires Harmless(k)
    ensures NoOpening(SerializeMembers(ms, gap, indent), k)
    decreases ms, 0
  {
    if |ms| == 1 {
      IndentedMemberHasNoOpening(ms[0], gap, indent, k);
    } else {
      var more := SerializeMembers(ms[1..], gap, indent);
      IndentedMembersHaveNoOpening(ms[1..], gap, indent, k);
      IndentedMemberHasNoOpening(ms[0], gap, indent, ([COMMA] + Break(gap, indent)) + (more + k));
      EntriesHaveNoOpening(SerializeMember(ms[0], gap, indent), Break(gap, indent), more, k);
    }
  }

  /** On the indented text of any tree no pattern occurs, and a replacement pass does nothing. */
  lemma PrettyHidesReferences(v: Json, r: Rule)
    ensures forall i :: !MatchAt(Pretty(v), From(r), i)
    ensures Replaced(Pretty(v), From(r), To(r)) == Pretty(v)
  {
    var t := Pretty(v);
    IndentedHasNoOpening(v, [SPACE, SPACE], [], []);
    assert t + [] == t;
    forall i ensures !MatchAt(t, From(r), i) {
      if MatchAt(t, From(r), i) {
        FromOpens(r);
        MatchOpens(t, r, i);
      }
    }
    CopiedWithoutOpening(t, [], r);
  }
}
