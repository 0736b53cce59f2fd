/** Replacing text in the compact serialization is substitution on the tree. */
module Rewriting {
  import opened JsText
  import opened Json
  import opened Stringify
  import opened RoundTrip
  import opened ReplaceText
  import opened Substitution

  const LETTER_D: CodeUnit := 0x64

  function From(r: Rule): Text {
    Compact(Ref(r.name))
  }

  function To(r: Rule): Text {
    Compact(Str(r.target))
  }

  // ---------- The compact form, without its empty breaks ----------

  function CompactItems(items: seq<Json>): Text
    requires items != []
  {
    SerializeItems(items, [], [])
  }

  function CompactMembers(ms: seq<Member>): Text
    requires ms != []
  {
    SerializeMembers(ms, [], [])
  }

  lemma {:induction false} CompactArr(items: seq<Json>)
    requires items != []
    ensures Compact(Arr(items)) == [LBRACKET] + CompactItems(items) + [RBRACKET]
  {
  }

  lemma {:induction false} CompactObj(ms: seq<Member>)
    requires ms != []
    ensures Compact(Obj(ms)) == [LBRACE] + CompactMembers(ms) + [RBRACE]
  {
  }

  /** The text of one member, and what separates it from the next. */
  function CompactMember(m: Member): Text {
    SerializeMember(m, [], [])
  }

  lemma {:induction false} CompactItemsStep(items: seq<Json>)
    requires |items| > 1
    ensures CompactItems(items) == Compact(items[0]) + ([COMMA] + CompactItems(items[1..]))
  {
  }

  lemma {:induction false} CompactMembersStep(ms: seq<Member>)
    requires |ms| > 1
    ensures CompactMembers(ms) == CompactMember(ms[0]) + ([COMMA] + CompactMembers(ms[1..]))
  {
  }

  // ---------- Where a pattern can start ----------

  /** A brace, a quote and the letter `d`: how every pattern begins. */
  predicate Opens(t: Text, j: int) {
    0 <= j && j + 2 < |t| && t[j] == LBRACE && t[j + 1] == QUOTE && t[j + 2] == LETTER_D
  }

  /** What follows a value or a key never starts with the letter `d`. */
  predicate Harmless(k: Text) {
    k == [] || k[0] != LETTER_D
  }

  lemma {:induction false} FromText(r: Rule)
    ensures From(r) == [LBRACE] + (Quote(DEFINED) + [COLON] + Quote(r.name)) + [RBRACE]
  {
    var m := Member(DEFINED, Str(r.name));
    CompactObj([m]);
    assert CompactMembers([m]) == SerializeMember(m, [], []);
  }

  lemma {:induction false} FromOpens(r: Rule)
    ensures |From(r)| > 3 && Opens(From(r), 0)
  {
    FromText(r);
    assert DEFINED[0] == LETTER_D;
    assert Escape(DEFINED)[0] == LETTER_D;
    assert Quote(DEFINED)[0] == QUOTE && Quote(DEFINED)[1] == LETTER_D;
  }

  lemma {:induction false} MatchOpens(t: Text, r: Rule, j: int)
    requires MatchAt(t, From(r), j)
    ensures Opens(t, j)
  {
    FromOpens(r);
    var m := t[j..j + |From(r)|];
    assert m[0] == t[j] && m[1] == t[j + 1] && m[2] == t[j + 2];
  }

  /** No pattern starts inside `a` when `k` follows it. */
  predicate NoOpening(a: Text, k: Text) {
    forall j :: 0 <= j < |a| ==> !Opens(a + k, j)
  }

  lemma {:induction false} CopiedWithoutOpening(a: Text, k: Text, r: Rule)
    requires NoOpening(a, k)
    ensures Replaced(a + k, From(r), To(r)) == a + Replaced(k, From(r), To(r))
  {
    FromOpens(r);
    forall j | 0 <= j < |a| ensures !MatchAt(a + k, From(r), j) {
      if MatchAt(a + k, From(r), j) {
        MatchOpens(a + k, r, j);
      }
    }
    ReplacedSkips(a, k, From(r), To(r));
  }

  lemma {:induction false} NoOpeningConcat(a: Text, b: Text, k: Text)
    requires NoOpening(a, b + k) && NoOpening(b, k)
    ensures NoOpening(a + b, k)
  {
    assert (a + b) + k == a + (b + k);
    forall j | 0 <= j < |a + b| ensures !Opens((a + b) + k, j) {
      if j >= |a| {
        assert Opens(a + (b + k), j) <==> Opens(b + k, j - |a|);
      }
    }
  }

  /** Escaped units never put an unescaped quote behind a brace. */
  lemma {:induction false} EscapeUnitHasNoOpening(c: CodeUnit, k: Text)
    requires k != [] && (k[0] == QUOTE ==> Harmless(k[1..]))
    ensures NoOpening(EscapeUnit(c), k)
  {
  }

  lemma {:induction false} EscapeHasNoOpening(s: Text, k: Text)
    requires Harmless(k)
    ensures NoOpening(Escape(s), [QUOTE] + k)
    decreases |s|
  {
    var close := [QUOTE] + k;
    assert close[1..] == k;
    if s == [] {
    } else if |s| >= 2 && IsHighSurrogate(s[0]) && IsLowSurrogate(s[1]) {
      EscapeHasNoOpening(s[2..], k);
      NoOpeningConcat(s[..2], Escape(s[2..]), close);
    } else {
      EscapeHasNoOpening(s[1..], k);
      EscapeStart(s[1..], k);
      EscapeUnitHasNoOpening(s[0], Escape(s[1..]) + close);
      NoOpeningConcat(EscapeUnit(s[0]), Escape(s[1..]), close);
    }
  }

  /** A string body starts with a quote only if it is empty. */
  lemma {:induction false} EscapeStart(s: Text, k: Text)
    ensures var t := Escape(s) + ([QUOTE] + k);
      t != [] && (t[0] == QUOTE ==> t[1..] == k)
  {
  }

  /** No pattern starts inside a string literal, whatever the string holds. */
  lemma {:induction false} QuoteHasNoOpening(s: Text, k: Text)
    requires Harmless(k)
    ensures NoOpening(Quote(s), k)
  {
    EscapeHasNoOpening(s, k);
    NoOpeningConcat([QUOTE], Escape(s), [QUOTE] + k);
    NoOpeningConcat([QUOTE] + Escape(s), [QUOTE], k);
  }

  // ---------- The rewriting of a serialized value ----------

  /** Text without braces is copied. */
  lemma {:induction false} CopiedWithoutBrace(a: Text, k: Text, r: Rule)
    requires LBRACE !in a
    ensures Replaced(a + k, From(r), To(r)) == a + Replaced(k, From(r), To(r))
  {
    assert forall j :: 0 <= j < |a| ==> (a + k)[j] == a[j];
    CopiedWithoutOpening(a, k, r);
  }

  lemma {:induction false} QuoteCopied(s: Text, k: Text, r: Rule)
    requires Harmless(k)
    ensures Replaced(Quote(s) + k, From(r), To(r)) == Quote(s) + Replaced(k, From(r), To(r))
  {
    QuoteHasNoOpening(s, k);
    CopiedWithoutOpening(Quote(s), k, r);
  }

  lemma {:induction false} ScalarHasNoBrace(v: Json)
    requires v.Null? || v.Bool? || v.Num?
    ensures LBRACE !in Compact(v)
  {
  }

  /** A pattern stands at the front of a serialized object only if the object is that reference. */
  lemma {:induction false} FromIsRef(v: Json, r: Rule, k: Text)
    requires v.Obj?
    requires From(r) <= Compact(v) + k
    ensures v == Ref(r.name)
  {
    var t := Compact(v) + k;
    var rest := t[|From(r)|..];
    assert t == From(r) + rest;
    ParseSerialized(v, [], [], k);
    ParseSerialized(Ref(r.name), [], [], rest);
  }

  /** Rewriting the text of a value gives the text of the rewritten value, and goes on behind it. */
  lemma {:induction false} RewriteValue(v: Json, r: Rule, k: Text)
    requires Harmless(k)
    ensures Replaced(Compact(v) + k, From(r), To(r)) == Compact(Subst(v, r)) + Replaced(k, From(r), To(r))
    decreases v, 1
  {
    if v == Ref(r.name) {
      FromOpens(r);
      ReplacedMatch(k, From(r), To(r));
    } else {
      match v {
        case Str(s) => QuoteCopied(s, k, r);
        case Arr(items) =>
          if items == [] {
            CopiedWithoutBrace(Compact(v), k, r);
          } else {
            RewriteArray(items, r, k);
          }
        case Obj(ms) => RewriteObject(ms, r, k);
        case _ =>
          ScalarHasNoBrace(v);
          CopiedWithoutBrace(Compact(v), k, r);
      }
    }
  }

  lemma {:induction false} RewriteArray(items: seq<Json>, r: Rule, k: Text)
    requires items != []
    requires Harmless(k)
    ensures Replaced(Compact(Arr(items)) + k, From(r), To(r))
         == Compact(Arr(SubstItems(items, r))) + Replaced(k, From(r), To(r))
    decreases items, 1
  {
    var tail := [RBRACKET] + k;
    CompactArr(items);
    CompactArr(SubstItems(items, r));
    Regroup4([LBRACKET], CompactItems(items), [RBRACKET], k);
    CopiedWithoutBrace([LBRACKET], CompactItems(items) + tail, r);
    RewriteItems(items, r, tail);
    CopiedWithoutBrace([RBRACKET], k, r);
    Regroup4([LBRACKET], CompactItems(SubstItems(items, r)), [RBRACKET], Replaced(k, From(r), To(r)));
  }

  lemma {:induction false} RewriteItems(items: seq<Json>, r: Rule, k: Text)
    requires items != []
    requires Harmless(k)
    ensures Replaced(CompactItems(items) + k, From(r), To(r))
         == CompactItems(SubstItems(items, r)) + Replaced(k, From(r), To(r))
    decreases items, 0
  {
    if |items| == 1 {
      RewriteValue(items[0], r, k);
    } else {
      var rest, rest' := CompactItems(items[1..]), CompactItems(SubstItems(items[1..], r));
      var done := Replaced(k, From(r), To(r));
      assert SubstItems(items, r)[1..] == SubstItems(items[1..], r);
      CompactItemsStep(items);
      CompactItemsStep(SubstItems(items, r));
      Regroup3(Compact(items[0]), [COMMA] + rest, k);
      Regroup3([COMMA], rest, k);
      RewriteValue(items[0], r, [COMMA] + (rest + k));
      CopiedWithoutBrace([COMMA], rest + k, r);
      RewriteItems(items[1..], r, k);
      Regroup3(Compact(Subst(items[0], r)), [COMMA] + rest', done);
      Regroup3([COMMA], rest', done);
    }
  }

  lemma {:induction false} RewriteObject(ms: seq<Member>, r: Rule, k: Text)
    requires Obj(ms) != Ref(r.name)
    requires Harmless(k)
    ensures Replaced(Compact(Obj(ms)) + k, From(r), To(r))
         == Compact(Obj(SubstMembers(ms, r))) + Replaced(k, From(r), To(r))
    decreases ms, 1
  {
    var t := Compact(Obj(ms)) + k;
    if From(r) <= t {
      FromIsRef(Obj(ms), r, k);
    }
    FromOpens(r);
    assert t[0] == LBRACE;
    assert Replaced(t, From(r), To(r)) == [LBRACE] + Replaced(t[1..], From(r), To(r));
    if ms == [] {
      assert t[1..] == [RBRACE] + k;
      CopiedWithoutBrace([RBRACE], k, r);
    } else {
      var tail := [RBRACE] + k;
      CompactObj(ms);
      CompactObj(SubstMembers(ms, r));
      Regroup4([LBRACE], CompactMembers(ms), [RBRACE], k);
      assert t[1..] == CompactMembers(ms) + tail;
      RewriteMembers(ms, r, tail);
      CopiedWithoutBrace([RBRACE], k, r);
      Regroup4([LBRACE], CompactMembers(SubstMembers(ms, r)), [RBRACE], Replaced(k, From(r), To(r)));
    }
  }

  lemma {:induction false} RewriteMember(m: Member, r: Rule, k: Text)
    requires Harmless(k)
    ensures Replaced(CompactMember(m) + k, From(r), To(r))
         == CompactMember(Member(m.key, Subst(m.value, r))) + Replaced(k, From(r), To(r))
    decreases m, 0
  {
    var text := Compact(m.value);
    Regroup4(Quote(m.key), [COLON], text, k);
    QuoteCopied(m.key, [COLON] + (text + k), r);
    CopiedWithoutBrace([COLON], text + k, r);
    RewriteValue(m.value, r, k);
    Regroup4(Quote(m.key), [COLON], Compact(Subst(m.value, r)), Replaced(k, From(r), To(r)));
  }

  lemma {:induction false} RewriteMembers(ms: seq<Member>, r: Rule, k: Text)
    requires ms != []
    requires Harmless(k)
    ensures Replaced(CompactMembers(ms) + k, From(r), To(r))
         == CompactMembers(SubstMembers(ms, r)) + Replaced(k, From(r), To(r))
    decreases ms, 0
  {
    RewriteMember(ms[0], r, if |ms| == 1 then k else [COMMA] + (CompactMembers(ms[1..]) + k));
    if |ms| > 1 {
      var rest, rest' := CompactMembers(ms[1..]), CompactMembers(SubstMembers(ms[1..], r));
      var done := Replaced(k, From(r), To(r));
      assert SubstMembers(ms, r)[1..] == SubstMembers(ms[1..], r);
      CompactMembersStep(ms);
      CompactMembersStep(SubstMembers(ms, r));
      Regroup3(CompactMember(ms[0]), [COMMA] + rest, k);
      Regroup3([COMMA], rest, k);
      CopiedWithoutBrace([COMMA], rest + k, r);
      RewriteMembers(ms[1..], r, k);
      Regroup3(CompactMember(SubstMembers(ms, r)[0]), [COMMA] + rest', done);
      Regroup3([COMMA], rest', done);
    }
  }

  // ---------- Main results ----------

  /** One textual pass is one structural pass, on every tree. */
  lemma ReplacedIsSubst(v: Json, r: Rule)
    ensures Replaced(Compact(v), From(r), To(r)) == Compact(Subst(v, r))
  {
    RewriteValue(v, r, []);
    assert Compact(v) + [] == Compact(v);
    assert Compact(Subst(v, r)) + [] == Compact(Subst(v, r));
  }
}
