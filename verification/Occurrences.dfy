/** Every textual match of a pattern is one whole reference subtree, and every such subtree is matched. */
module Occurrences {
  import opened JsText
  import opened Json
  import opened Stringify
  import opened ReplaceText
  import opened Substitution
  import opened Rewriting
  import opened Layout

  // ---------- Subtrees and where their text starts ----------

  /** The subtree at a path of child numbers. */
  function SubtreeAt(v: Json, path: seq<nat>): Option<Json>
    decreases |path|
  {
    if path == [] then Some(v)
    else match v
      case Arr(items) => if path[0] < |items| then SubtreeAt(items[path[0]], path[1..]) else None
      case Obj(ms) => if path[0] < |ms| then SubtreeAt(ms[path[0]].value, path[1..]) else None
      case _ => None
  }

  /** Where item `i` starts in the text of the items. */
  function ItemOffset(items: seq<Json>, i: nat): nat
    requires i < |items|
  {
    if i == 0 then 0 else |Compact(items[0])| + 1 + ItemOffset(items[1..], i - 1)
  }

  /** Where the value of member `i` starts in the text of the members. */
  function MemberOffset(ms: seq<Member>, i: nat): nat
    requires i < |ms|
  {
    if i == 0 then |Quote(ms[0].key)| + 1 else |CompactMember(ms[0])| + 1 + MemberOffset(ms[1..], i - 1)
  }

  /** Where the text of a subtree starts in the text of the tree. */
  function Offset(v: Json, path: seq<nat>): nat
    requires SubtreeAt(v, path).Some?
    decreases |path|
  {
    if path == [] then 0
    else match v
      case Arr(items) => 1 + ItemOffset(items, path[0]) + Offset(items[path[0]], path[1..])
      case Obj(ms) => 1 + MemberOffset(ms, path[0]) + Offset(ms[path[0]].value, path[1..])
  }

  // ---------- From subtrees to text ----------

  lemma MatchWithin(t: Text, a: Text, i: nat, b: Text, j: nat)
    requires MatchAt(t, a, i) && MatchAt(a, b, j)
    ensures MatchAt(t, b, i + j)
  {
    var rest := t[i + |a|..];
    assert t[i..] == a + rest;
    assert (a + rest)[j..j + |b|] == a[j..j + |b|];
    MatchShift(t, b, i, j);
  }

  lemma MatchBehind(a: Text, b: Text, p: Text, j: int)
    ensures j >= 0 ==> (MatchAt(a + b, p, |a| + j) <==> MatchAt(b, p, j))
  {
  }

  lemma MatchMiddle(a: Text, b: Text, k: Text)
    ensures MatchAt(a + b + k, b, |a|)
  {
  }

  lemma FirstEntry(first: Text, later: Text, p: Text, o: nat)
    requires MatchAt(first, p, o)
    ensures MatchAt(first + later, p, o)
  {
  }

  lemma LaterEntry(first: Text, rest: Text, p: Text, o: nat)
    requires MatchAt(rest, p, o)
    ensures MatchAt(first + ([COMMA] + rest), p, |first| + 1 + o)
  {
  }

  lemma {:induction false} ItemText(items: seq<Json>, i: nat)
    requires i < |items|
    ensures MatchAt(CompactItems(items), Compact(items[i]), ItemOffset(items, i))
  {
    var first := Compact(items[0]);
    if i == 0 {
      assert first[0..|first|] == first;
    }
    if |items| > 1 {
      var rest := CompactItems(items[1..]);
      CompactItemsStep(items);
      if i == 0 {
        FirstEntry(first, [COMMA] + rest, first, 0);
      } else {
        ItemText(items[1..], i - 1);
        LaterEntry(first, rest, Compact(items[i]), ItemOffset(items[1..], i - 1));
      }
    }
  }

  /** The value of a member stands behind its key and the colon. */
  lemma {:induction false} ValueText(m: Member)
    ensures MatchAt(CompactMember(m), Compact(m.value), |Quote(m.key)| + 1)
  {
    var head, text := Quote(m.key) + [COLON], Compact(m.value);
    assert CompactMember(m) == head + text;
    assert (head + text)[|head|..|head| + |text|] == text;
  }

  lemma {:induction false} FirstMemberText(ms: seq<Member>)
    requires ms != []
    ensures MatchAt(CompactMembers(ms), Compact(ms[0].value), |Quote(ms[0].key)| + 1)
  {
    ValueText(ms[0]);
    if |ms| > 1 {
      CompactMembersStep(ms);
      FirstEntry(CompactMember(ms[0]), [COMMA] + CompactMembers(ms[1..]), Compact(ms[0].value), |Quote(ms[0].key)| + 1);
    }
  }

  lemma {:induction false} MemberText(ms: seq<Member>, i: nat)
    requires i < |ms|
    ensures MatchAt(CompactMembers(ms), Compact(ms[i].value), MemberOffset(ms, i))
  {
    if i == 0 {
      FirstMemberText(ms);
    } else {
      var o := MemberOffset(ms[1..], i - 1);
      MemberText(ms[1..], i - 1);
      CompactMembersStep(ms);
      LaterEntry(CompactMember(ms[0]), CompactMembers(ms[1..]), Compact(ms[i].value), o);
    }
  }

  /** Going down one level: what stands in a child stands in the bracketed body that holds the child. */
  lemma TextBelow(open: CodeUnit, body: Text, close: CodeUnit, o: nat, child: Text, w: Text, o': nat)
    requires MatchAt(body, child, o) && MatchAt(child, w, o')
    ensures MatchAt([open] + body + [close], w, 1 + o + o')
  {
    var t := [open] + body + [close];
    MatchMiddle([open], body, [close]);
    MatchWithin(t, body, 1, child, o);
    MatchWithin(t, child, 1 + o, w, o');
  }

  lemma {:induction false} TextInArr(items: seq<Json>, i: nat, w: Text, o: nat)
    requires i < |items| && MatchAt(Compact(items[i]), w, o)
    ensures MatchAt(Compact(Arr(items)), w, 1 + ItemOffset(items, i) + o)
  {
    ItemText(items, i);
    CompactArr(items);
    TextBelow(LBRACKET, CompactItems(items), RBRACKET, ItemOffset(items, i), Compact(items[i]), w, o);
  }

  lemma {:induction false} TextInObj(ms: seq<Member>, i: nat, w: Text, o: nat)
    requires i < |ms| && MatchAt(Compact(ms[i].value), w, o)
    ensures MatchAt(Compact(Obj(ms)), w, 1 + MemberOffset(ms, i) + o)
  {
    MemberText(ms, i);
    CompactObj(ms);
    TextBelow(LBRACE, CompactMembers(ms), RBRACE, MemberOffset(ms, i), Compact(ms[i].value), w, o);
  }

  lemma MatchSelf(t: Text)
    ensures MatchAt(t, t, 0)
  {
    assert t[0..|t|] == t;
  }

  /** At the offset of a subtree stands exactly the text of that subtree. */
  lemma {:induction false} SubtreeText(v: Json, path: seq<nat>, w: Json)
    requires SubtreeAt(v, path) == Some(w)
    ensures MatchAt(Compact(v), Compact(w), Offset(v, path))
    decreases |path|
  {
    if path == [] {
      MatchSelf(Compact(v));
    } else {
      var i, later, text := path[0], path[1..], Compact(w);
      match v {
        case Arr(items) =>
          var o := Offset(items[i], later);
          SubtreeText(items[i], later, w);
          TextInArr(items, i, text, o);
        case Obj(ms) =>
          var o := Offset(ms[i].value, later);
          SubtreeText(ms[i].value, later, w);
          TextInObj(ms, i, text, o);
      }
    }
  }

  // ---------- From text to subtrees ----------

  /** The reference to `name` is a subtree whose text starts at `i`. */
  ghost predicate RefStartsAt(v: Json, name: Text, i: int) {
    exists path :: SubtreeAt(v, path) == Some(Ref(name)) && Offset(v, path) == i
  }

  ghost predicate RefStartsInItems(items: seq<Json>, name: Text, i: int) {
    exists j: nat :: j < |items| && RefStartsAt(items[j], name, i - ItemOffset(items, j))
  }

  ghost predicate RefStartsInMembers(ms: seq<Member>, name: Text, i: int) {
    exists j: nat :: j < |ms| && RefStartsAt(ms[j].value, name, i - MemberOffset(ms, j))
  }

  lemma {:induction false} RefInArr(items: seq<Json>, name: Text, i: int)
    requires RefStartsInItems(items, name, i)
    ensures RefStartsAt(Arr(items), name, i + 1)
  {
    var j: nat :| j < |items| && RefStartsAt(items[j], name, i - ItemOffset(items, j));
    var path :| SubtreeAt(items[j], path) == Some(Ref(name)) && Offset(items[j], path) == i - ItemOffset(items, j);
    var whole := [j] + path;
    assert whole[0] == j && whole[1..] == path;
    assert SubtreeAt(Arr(items), whole) == Some(Ref(name)) && Offset(Arr(items), whole) == i + 1;
  }

  lemma {:induction false} RefInObj(ms: seq<Member>, name: Text, i: int)
    requires RefStartsInMembers(ms, name, i)
    ensures RefStartsAt(Obj(ms), name, i + 1)
  {
    var j: nat :| j < |ms| && RefStartsAt(ms[j].value, name, i - MemberOffset(ms, j));
    var path :| SubtreeAt(ms[j].value, path) == Some(Ref(name)) && Offset(ms[j].value, path) == i - MemberOffset(ms, j);
    var whole := [j] + path;
    assert whole[0] == j && whole[1..] == path;
    assert SubtreeAt(Obj(ms), whole) == Some(Ref(name)) && Offset(Obj(ms), whole) == i + 1;
  }

  lemma {:induction false} RefInLaterItems(items: seq<Json>, name: Text, i: int)
    requires |items| > 1
    ensures RefStartsInItems(items[1..], name, i) ==> RefStartsInItems(items, name, i + |Compact(items[0])| + 1)
  {
  }

  lemma {:induction false} RefInLaterMembers(ms: seq<Member>, name: Text, i: int)
    requires |ms| > 1
    ensures RefStartsInMembers(ms[1..], name, i) ==> RefStartsInMembers(ms, name, i + |CompactMember(ms[0])| + 1)
  {
  }

  lemma {:induction false} NoMatchWithoutOpening(a: Text, k: Text, r: Rule)
    requires NoOpening(a, k)
    ensures NoMatchIn(a + k, From(r), 0, |a|)
  {
    forall j | 0 <= j < |a| ensures !MatchAt(a + k, From(r), j) {
      if MatchAt(a + k, From(r), j) {
        MatchOpens(a + k, r, j);
      }
    }
  }

  lemma {:induction false} MatchIsRef(v: Json, r: Rule, k: Text, i: nat)
    requires Harmless(k) && i < |Compact(v)|
    ensures MatchAt(Compact(v) + k, From(r), i) ==> RefStartsAt(v, r.name, i)
    decreases v, 1
  {
    var t := Compact(v) + k;
    match v {
      case Str(s) =>
        QuoteHasNoOpening(s, k);
        NoMatchWithoutOpening(Quote(s), k, r);
      case Arr(items) =>
        if items == [] {
          NoOpeningWithoutBrace(Compact(v), k);
          NoMatchWithoutOpening(Compact(v), k, r);
        } else {
          MatchInArray(items, r, k, i);
        }
      case Obj(ms) =>
        if i == 0 {
          PrefixIsMatch(t, From(r));
          if From(r) <= t {
            FromIsRef(v, r, k);
            assert SubtreeAt(v, []) == Some(Ref(r.name)) && Offset(v, []) == 0;
          }
        } else if ms == [] {
          NoOpeningWithoutBrace([RBRACE], k);
          NoMatchWithoutOpening([RBRACE], k, r);
          assert t == [LBRACE] + ([RBRACE] + k);
          MatchBehind([LBRACE], [RBRACE] + k, From(r), i - 1);
        } else {
          MatchInObject(ms, r, k, i);
        }
      case _ =>
        ScalarHasNoBrace(v);
        NoOpeningWithoutBrace(Compact(v), k);
        NoMatchWithoutOpening(Compact(v), k, r);
    }
  }

  /** A match cannot start at a unit that is not a brace. */
  lemma {:induction false} NoMatchAtUnit(a: Text, c: CodeUnit, b: Text, r: Rule)
    requires c != LBRACE
    ensures !MatchAt(a + ([c] + b), From(r), |a|)
  {
    if MatchAt(a + ([c] + b), From(r), |a|) {
      MatchOpens(a + ([c] + b), r, |a|);
    }
  }

  /** In bracketed text, a match that does not start at the open bracket starts in the body. */
  lemma {:induction false} MatchInBody(open: CodeUnit, body: Text, close: CodeUnit, k: Text, r: Rule, i: nat)
    requires close != LBRACE && (open == LBRACE ==> i > 0) && i < |body| + 2
    ensures MatchAt(([open] + body + [close]) + k, From(r), i) ==>
      0 < i <= |body| && MatchAt(body + ([close] + k), From(r), i - 1)
  {
    var inside := body + ([close] + k);
    Regroup4([open], body, [close], k);
    if i == 0 {
      NoMatchAtUnit([], open, inside, r);
      assert [] + ([open] + inside) == [open] + inside;
    } else {
      MatchBehind([open], inside, From(r), i - 1);
      if i - 1 == |body| {
        NoMatchAtUnit(body, close, k, r);
      }
    }
  }

  /** In a list of entries, a match starts in the first entry or in the others. */
  lemma {:induction false} MatchInEntries(first: Text, rest: Text, k: Text, r: Rule, i: nat)
    ensures MatchAt((first + ([COMMA] + rest)) + k, From(r), i) ==>
      i != |first|
      && (i < |first| ==> MatchAt(first + ([COMMA] + (rest + k)), From(r), i))
      && (i > |first| ==> MatchAt(rest + k, From(r), i - |first| - 1))
  {
    Regroup3(first, [COMMA] + rest, k);
    Regroup3([COMMA], rest, k);
    if i == |first| {
      NoMatchAtUnit(first, COMMA, rest + k, r);
    } else if i > |first| {
      Regroup3(first, [COMMA], rest + k);
      MatchBehind(first + [COMMA], rest + k, From(r), i - |first| - 1);
    }
  }

  lemma {:induction false} MatchInArray(items: seq<Json>, r: Rule, k: Text, i: nat)
    requires items != [] && Harmless(k) && i < |Compact(Arr(items))|
    ensures MatchAt(Compact(Arr(items)) + k, From(r), i) ==> RefStartsAt(Arr(items), r.name, i)
    decreases items, 1
  {
    var body := CompactItems(items);
    CompactArr(items);
    MatchInBody(LBRACKET, body, RBRACKET, k, r, i);
    if 0 < i <= |body| {
      MatchInItems(items, r, [RBRACKET] + k, i - 1);
      if RefStartsInItems(items, r.name, i - 1) {
        RefInArr(items, r.name, i - 1);
      }
    }
  }

  lemma {:induction false} RefInFirstItem(items: seq<Json>, name: Text, i: int)
    requires items != []
    ensures RefStartsAt(items[0], name, i) ==> RefStartsInItems(items, name, i)
  {
    assert i - ItemOffset(items, 0) == i;
  }

  lemma {:induction false} MatchInItems(items: seq<Json>, r: Rule, k: Text, i: nat)
    requires items != [] && Harmless(k) && i < |CompactItems(items)|
    ensures MatchAt(CompactItems(items) + k, From(r), i) ==> RefStartsInItems(items, r.name, i)
    decreases items, 0
  {
    var first := Compact(items[0]);
    RefInFirstItem(items, r.name, i);
    if |items| == 1 {
      MatchIsRef(items[0], r, k, i);
    } else {
      var rest := CompactItems(items[1..]);
      CompactItemsStep(items);
      MatchInEntries(first, rest, k, r, i);
      if i < |first| {
        MatchIsRef(items[0], r, [COMMA] + (rest + k), i);
      } else if i > |first| {
        MatchInItems(items[1..], r, k, i - |first| - 1);
        RefInLaterItems(items, r.name, i - |first| - 1);
      }
    }
  }

  lemma {:induction false} MatchInObject(ms: seq<Member>, r: Rule, k: Text, i: nat)
    requires ms != [] && Harmless(k) && 0 < i < |Compact(Obj(ms))|
    ensures MatchAt(Compact(Obj(ms)) + k, From(r), i) ==> RefStartsAt(Obj(ms), r.name, i)
    decreases ms, 2
  {
    var body := CompactMembers(ms);
    CompactObj(ms);
    MatchInBody(LBRACE, body, RBRACE, k, r, i);
    if i <= |body| {
      MatchInMembers(ms, r, [RBRACE] + k, i - 1);
      if RefStartsInMembers(ms, r.name, i - 1) {
        RefInObj(ms, r.name, i - 1);
      }
    }
  }

  /** A match inside the text of a member is inside its value. */
  lemma {:induction false} MatchInMember(m: Member, r: Rule, k: Text, i: nat)
    requires Harmless(k) && i < |CompactMember(m)|
    ensures MatchAt(CompactMember(m) + k, From(r), i) ==> RefStartsAt(m.value, r.name, i - |Quote(m.key)| - 1)
    decreases m, 0
  {
    var q, text := Quote(m.key), Compact(m.value);
    Regroup4(q, [COLON], text, k);
    if i < |q| {
      QuoteHasNoOpening(m.key, [COLON] + (text + k));
      NoMatchWithoutOpening(q, [COLON] + (text + k), r);
    } else if i == |q| {
      NoMatchAtUnit(q, COLON, text + k, r);
    } else {
      Regroup3(q, [COLON], text + k);
      MatchBehind(q + [COLON], text + k, From(r), i - |q| - 1);
      MatchIsRef(m.value, r, k, i - |q| - 1);
    }
  }

  lemma {:induction false} RefInFirstMember(ms: seq<Member>, name: Text, i: int)
    requires ms != []
    ensures RefStartsAt(ms[0].value, name, i - |Quote(ms[0].key)| - 1) ==> RefStartsInMembers(ms, name, i)
  {
    assert i - MemberOffset(ms, 0) == i - |Quote(ms[0].key)| - 1;
  }

  lemma {:induction false} MatchInMembers(ms: seq<Member>, r: Rule, k: Text, i: nat)
    requires ms != [] && Harmless(k) && i < |CompactMembers(ms)|
    ensures MatchAt(CompactMembers(ms) + k, From(r), i) ==> RefStartsInMembers(ms, r.name, i)
    decreases ms, 1
  {
    var first := CompactMember(ms[0]);
    RefInFirstMember(ms, r.name, i);
    if |ms| == 1 {
      MatchInMember(ms[0], r, k, i);
    } else {
      var rest := CompactMembers(ms[1..]);
      CompactMembersStep(ms);
      MatchInEntries(first, rest, k, r, i);
      if i < |first| {
        MatchInMember(ms[0], r, [COMMA] + (rest + k), i);
      } else if i > |first| {
        MatchInMembers(ms[1..], r, k, i - |first| - 1);
        RefInLaterMembers(ms, r.name, i - |first| - 1);
      }
    }
  }

  // ---------- Outside string literals ----------

  /** Behind the first entry and its comma, at a place that is outside in the other entries. */
  lemma {:induction false} OutsideLater(first: Text, rest: Text, o: nat)
    requires Run(Outside, first) == Outside && o <= |rest| && Run(Outside, rest[..o]) == Outside
    ensures Run(Outside, (first + ([COMMA] + rest))[..|first| + 1 + o]) == Outside
  {
    assert (first + ([COMMA] + rest))[..|first| + 1 + o] == first + ([COMMA] + rest[..o]);
    RunConcat(Outside, first, [COMMA] + rest[..o]);
    RunConcat(Outside, [COMMA], rest[..o]);
    StripsPlain([COMMA]);
  }

  lemma {:induction false} OutsideAtItem(items: seq<Json>, i: nat)
    requires i < |items|
    ensures ItemOffset(items, i) <= |CompactItems(items)|
    ensures Run(Outside, CompactItems(items)[..ItemOffset(items, i)]) == Outside
  {
    if i > 0 {
      var first, rest, o := Compact(items[0]), CompactItems(items[1..]), ItemOffset(items[1..], i - 1);
      OutsideAtItem(items[1..], i - 1);
      StripSerialized(items[0], [], []);
      OutsideLater(first, rest, o);
      CompactItemsStep(items);
    }
  }

  /** The key of a member and its colon are left outside. */
  lemma {:induction false} OutsideAtValue(m: Member, later: Text)
    ensures var o := |Quote(m.key)| + 1;
      o <= |CompactMember(m)| && Run(Outside, (CompactMember(m) + later)[..o]) == Outside
  {
    var head := Quote(m.key) + [COLON];
    assert CompactMember(m) == head + Compact(m.value);
    assert (CompactMember(m) + later)[..|head|] == head;
    StripsQuote(m.key);
    StripsPlain([COLON]);
    RunConcat(Outside, Quote(m.key), [COLON]);
  }

  lemma {:induction false} OutsideAtFirst(ms: seq<Member>)
    requires ms != []
    ensures var o := |Quote(ms[0].key)| + 1;
      o <= |CompactMembers(ms)| && Run(Outside, CompactMembers(ms)[..o]) == Outside
  {
    hide Run;
    if |ms| == 1 {
      OutsideAtValue(ms[0], []);
      assert CompactMember(ms[0]) + [] == CompactMembers(ms);
    } else {
      CompactMembersStep(ms);
      OutsideAtValue(ms[0], [COMMA] + CompactMembers(ms[1..]));
    }
  }

  lemma {:induction false} OutsideAtMember(ms: seq<Member>, i: nat)
    requires i < |ms|
    ensures MemberOffset(ms, i) <= |CompactMembers(ms)|
    ensures Run(Outside, CompactMembers(ms)[..MemberOffset(ms, i)]) == Outside
  {
    if i == 0 {
      OutsideAtFirst(ms);
    } else {
      hide Run, CompactMember, Serialize;
      var first, rest, o := CompactMember(ms[0]), CompactMembers(ms[1..]), MemberOffset(ms[1..], i - 1);
      OutsideAtMember(ms[1..], i - 1);
      StripMember(ms[0], [], []);
      OutsideLater(first, rest, o);
      CompactMembersStep(ms);
    }
  }

  /** Going down one level: an open bracket, the text before the child, and the start of the child. */
  lemma {:induction false} OutsideBelow(open: CodeUnit, body: Text, close: Text, o: nat, child: Text, o': nat)
    requires open != QUOTE
    requires o <= |body| && MatchAt(body, child, o) && o' <= |child|
    requires Run(Outside, body[..o]) == Outside && Run(Outside, child[..o']) == Outside
    ensures Run(Outside, ([open] + body + close)[..1 + o + o']) == Outside
  {
    var t := [open] + body + close;
    assert body[o..o + |child|] == child;
    assert t[..1 + o + o'] == [open] + (body[..o] + child[..o']);
    RunConcat(Outside, body[..o], child[..o']);
    RunConcat(Outside, [open], body[..o] + child[..o']);
    assert Run(Outside, [open]) == Outside;
  }

  lemma {:induction false} OutsideInArr(items: seq<Json>, i: nat, o': nat)
    requires i < |items| && o' <= |Compact(items[i])|
    requires Run(Outside, Compact(items[i])[..o']) == Outside
    ensures var o := 1 + ItemOffset(items, i) + o';
      o <= |Compact(Arr(items))| && Run(Outside, Compact(Arr(items))[..o]) == Outside
  {
    OutsideAtItem(items, i);
    ItemText(items, i);
    CompactArr(items);
    OutsideBelow(LBRACKET, CompactItems(items), [RBRACKET], ItemOffset(items, i), Compact(items[i]), o');
  }

  lemma {:induction false} OutsideInObj(ms: seq<Member>, i: nat, o': nat)
    requires i < |ms| && o' <= |Compact(ms[i].value)|
    requires Run(Outside, Compact(ms[i].value)[..o']) == Outside
    ensures var o := 1 + MemberOffset(ms, i) + o';
      o <= |Compact(Obj(ms))| && Run(Outside, Compact(Obj(ms))[..o]) == Outside
  {
    OutsideAtMember(ms, i);
    MemberText(ms, i);
    CompactObj(ms);
    OutsideBelow(LBRACE, CompactMembers(ms), [RBRACE], MemberOffset(ms, i), Compact(ms[i].value), o');
  }

  /** The text of every subtree starts outside all string literals. */
  lemma {:induction false} SubtreeStartsOutside(v: Json, path: seq<nat>)
    requires SubtreeAt(v, path).Some?
    ensures Offset(v, path) <= |Compact(v)|
    ensures Run(Outside, Compact(v)[..Offset(v, path)]) == Outside
    decreases |path|
  {
    if path != [] {
      hide Run, Compact, Serialize, ItemOffset, MemberOffset;
      var i := path[0];
      match v {
        case Arr(items) =>
          var o := Offset(items[i], path[1..]);
          SubtreeStartsOutside(items[i], path[1..]);
          OutsideInArr(items, i, o);
        case Obj(ms) =>
          var o := Offset(ms[i].value, path[1..]);
          SubtreeStartsOutside(ms[i].value, path[1..]);
          OutsideInObj(ms, i, o);
      }
    }
  }

  // ---------- Main results ----------

  /** The matches of a pattern are exactly the reference subtrees, each at its own offset. */
  lemma {:induction false} MatchesAreReferences(v: Json, r: Rule, i: int)
    ensures MatchAt(Compact(v), From(r), i) <==> RefStartsAt(v, r.name, i)
  {
    var t := Compact(v);
    assert t + [] == t;
    FromOpens(r);
    if 0 <= i < |t| {
      MatchIsRef(v, r, [], i);
    }
    if RefStartsAt(v, r.name, i) {
      var path :| SubtreeAt(v, path) == Some(Ref(r.name)) && Offset(v, path) == i;
      SubtreeText(v, path, Ref(r.name));
    }
  }

  /** No match starts inside a string literal, whatever quotes, braces or backslashes the strings hold. */
  lemma {:induction false} MatchesAreOutsideStrings(v: Json, r: Rule, i: int)
    requires MatchAt(Compact(v), From(r), i)
    ensures Run(Outside, Compact(v)[..i]) == Outside
  {
    MatchesAreReferences(v, r, i);
    var path :| SubtreeAt(v, path) == Some(Ref(r.name)) && Offset(v, path) == i;
    SubtreeStartsOutside(v, path);
  }

  /** Behind its first unit, a pattern holds no place where a pattern could start. */
  lemma {:induction false} FromOpensOnce(r: Rule, k: Text)
    ensures NoOpening(From(r)[1..], k)
  {
    FromText(r);
    assert From(r)[1..] == Quote(DEFINED) + [COLON] + Quote(r.name) + [RBRACE];
    NoOpeningWithoutBrace([RBRACE], k);
    QuoteHasNoOpening(r.name, [RBRACE] + k);
    NoOpeningConcat(Quote(r.name), [RBRACE], k);
    NoOpeningWithoutBrace([COLON], (Quote(r.name) + [RBRACE]) + k);
    NoOpeningConcat([COLON], Quote(r.name) + [RBRACE], k);
    var tail := [COLON] + (Quote(r.name) + [RBRACE]);
    QuoteHasNoOpening(DEFINED, tail + k);
    NoOpeningConcat(Quote(DEFINED), tail, k);
    Regroup3(Quote(DEFINED), [COLON], Quote(r.name) + [RBRACE]);
    Regroup3(Quote(DEFINED) + [COLON], Quote(r.name), [RBRACE]);
  }

  /** In any text, a later match of any pattern starts behind the end of an earlier one. */
  lemma {:induction false} PatternsDoNotOverlap(t: Text, a: Rule, b: Rule, i: int, j: int)
    requires MatchAt(t, From(a), i) && MatchAt(t, From(b), j) && i < j
    ensures i + |From(a)| <= j
  {
    var inside, k := From(a)[1..], t[i + |From(a)|..];
    FromOpens(a);
    FromOpensOnce(a, k);
    MatchOpens(t, b, j);
    assert t[i + 1..] == inside + k by {
      assert t[i..i + |From(a)|] == From(a);
    }
    assert Opens(t[i + 1..], j - i - 1);
  }
}
