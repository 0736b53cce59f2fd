/** The type rewriting of convert.ts: its replacement table, its loop, and what they do to a tree. */
module TypeRewrite {
  import opened JsText
  import opened Json
  import opened Stringify
  import opened Parse
  import opened RoundTrip
  import opened ReplaceText
  import opened Substitution
  import opened Rewriting

  datatype Replacement = Replacement(from: Text, to: Text)

  const REPLACEMENTS: seq<Replacement> := [
    Replacement(U("{\"defined\":\"usize\"}"), U("\"u64\"")),
    Replacement(U("{\"defined\":\"NodeHandle\"}"), U("\"u32\""))
  ]

  const USIZE := Rule(U("usize"), U("u64"))
  const NODE_HANDLE := Rule(U("NodeHandle"), U("u32"))

  /** The tree that the replacement table stands for. */
  function Rewritten(v: Json): Json {
    Subst(Subst(v, USIZE), NODE_HANDLE)
  }

  // ---------- The table, as texts of JSON values ----------

  predicate IsPlain(c: char) {
    '0' <= c <= '9' || 'A' <= c <= 'Z' || 'a' <= c <= 'z'
  }

  lemma UConcat(a: string, b: string)
    ensures U(a + b) == U(a) + U(b)
  {
  }

  lemma {:induction false} EscapePlain(word: string)
    requires forall c :: c in word ==> IsPlain(c)
    ensures Escape(U(word)) == U(word)
    ensures DOLLAR !in U(word)
  {
    if word != "" {
      var rest := word[1..];
      EscapePlain(rest);
      assert word == [word[0]] + rest;
      UConcat([word[0]], rest);
      assert IsPlain(word[0]);
      assert U([word[0]]) == [word[0] as int];
      assert U(word)[1..] == U(rest);
    }
  }

  lemma {:induction false} QuotePlain(word: string)
    requires forall c :: c in word ==> IsPlain(c)
    ensures Quote(U(word)) == U("\"" + word + "\"")
    ensures DOLLAR !in Quote(U(word))
  {
    EscapePlain(word);
    UConcat("\"", word);
    UConcat("\"" + word, "\"");
    assert U("\"") == [QUOTE];
  }

  /** How a reference is spelled in the source. */
  function RefLiteral(word: string): string {
    "{\"defined\":\"" + word + "\"}"
  }

  lemma RefLiteralParts(word: string)
    ensures U(RefLiteral(word)) == [LBRACE] + (U("\"defined\"") + [COLON] + U("\"" + word + "\"")) + [RBRACE]
  {
  }

  lemma DefinedLiteral()
    ensures "\"" + "defined" + "\"" == "\"defined\""
    ensures forall c :: c in "defined" ==> IsPlain(c)
  {
  }

  lemma {:induction false} QuotedDefined()
    ensures Quote(DEFINED) == U("\"defined\"")
  {
    DefinedLiteral();
    QuotePlain("defined");
  }

  /** The compact text of a reference to a plain name, as a literal. */
  lemma {:induction false} FromPlain(word: string, target: Text)
    requires forall c :: c in word ==> IsPlain(c)
    ensures From(Rule(U(word), target)) == U(RefLiteral(word))
  {
    FromText(Rule(U(word), target));
    QuotedDefined();
    QuotePlain(word);
    RefLiteralParts(word);
  }

  lemma TableLiterals()
    ensures REPLACEMENTS[0] == Replacement(U(RefLiteral("usize")), U("\"" + "u64" + "\""))
    ensures REPLACEMENTS[1] == Replacement(U(RefLiteral("NodeHandle")), U("\"" + "u32" + "\""))
  {
    assert RefLiteral("usize") == "{\"defined\":\"usize\"}";
    assert RefLiteral("NodeHandle") == "{\"defined\":\"NodeHandle\"}";
    assert "\"" + "u64" + "\"" == "\"u64\"";
    assert "\"" + "u32" + "\"" == "\"u32\"";
  }

  /** The first entry of the table holds the compact texts of a reference and of a name. */
  lemma {:induction false} UsizeEntry()
    ensures REPLACEMENTS[0] == Replacement(From(USIZE), To(USIZE))
    ensures DOLLAR !in To(USIZE)
  {
    TableLiterals();
    FromPlain("usize", USIZE.target);
    QuotePlain("u64");
  }

  lemma {:induction false} NodeHandleEntry()
    ensures REPLACEMENTS[1] == Replacement(From(NODE_HANDLE), To(NODE_HANDLE))
    ensures DOLLAR !in To(NODE_HANDLE)
  {
    TableLiterals();
    FromPlain("NodeHandle", NODE_HANDLE.target);
    QuotePlain("u32");
  }

  lemma RulesAreIndependent()
    ensures Independent(USIZE, NODE_HANDLE)
    ensures USIZE.target != USIZE.name && NODE_HANDLE.target != NODE_HANDLE.name
  {
  }

  // ---------- The loop over the table ----------

  predicate Usable(r: Replacement) {
    r.from != [] && DOLLAR !in r.to
  }

  function ReplacedEach(text: Text, rs: seq<Replacement>): Text
    requires forall i :: 0 <= i < |rs| ==> Usable(rs[i])
    decreases |rs|
  {
    if rs == [] then text
    else
      assert Usable(rs[0]);
      ReplacedEach(Replaced(text, rs[0].from, rs[0].to), rs[1..])
  }

  method ReplaceEach(text: Text, rs: seq<Replacement>) returns (idlString: Text)
    requires forall i :: 0 <= i < |rs| ==> Usable(rs[i])
    ensures idlString == ReplacedEach(text, rs)
  {
    idlString := text;
    for i := 0 to |rs|
      invariant ReplacedEach(idlString, rs[i..]) == ReplacedEach(text, rs)
    {
      idlString := ReplaceAll(idlString, rs[i].from, rs[i].to);
    }
  }

  // ---------- Main results ----------

  /** Entry by entry, the table spells out the rules. */
  predicate Spells(rs: seq<Replacement>, rules: seq<Rule>) {
    |rs| == |rules| && forall i :: 0 <= i < |rs| ==>
      Usable(rs[i]) && rs[i] == Replacement(From(rules[i]), To(rules[i]))
  }

  /** For any table of references and names, the loop over the compact text of any tree
      computes the compact text of the tree rewritten pass by pass. */
  lemma {:induction false} TextPassesAreTreePasses(v: Json, rs: seq<Replacement>, rules: seq<Rule>)
    requires Spells(rs, rules)
    ensures ReplacedEach(Compact(v), rs) == Compact(SubstEach(v, rules))
    decreases |rs|
  {
    if rs != [] {
      assert Usable(rs[0]);
      ReplacedIsSubst(v, rules[0]);
      TextPassesAreTreePasses(Subst(v, rules[0]), rs[1..], rules[1..]);
    }
  }

  lemma {:induction false} TableSpellsRules()
    ensures Spells(REPLACEMENTS, [USIZE, NODE_HANDLE])
  {
    UsizeEntry();
    NodeHandleEntry();
    FromOpens(USIZE);
    FromOpens(NODE_HANDLE);
  }

  lemma {:induction false} RewrittenIsEachPass(v: Json)
    ensures Rewritten(v) == SubstEach(v, [USIZE, NODE_HANDLE])
  {
    var rules := [USIZE, NODE_HANDLE];
    assert rules[1..] == [NODE_HANDLE];
    assert SubstEach(Subst(v, USIZE), [NODE_HANDLE]) == SubstEach(Rewritten(v), [NODE_HANDLE][1..]);
  }

  /** With the table of convert.ts: the rewritten text is the text of the rewritten tree. */
  lemma {:induction false} TextRewritingIsTreeRewriting(v: Json)
    ensures Spells(REPLACEMENTS, [USIZE, NODE_HANDLE])
    ensures ReplacedEach(Compact(v), REPLACEMENTS) == Compact(Rewritten(v))
  {
    TableSpellsRules();
    TextPassesAreTreePasses(v, REPLACEMENTS, [USIZE, NODE_HANDLE]);
    RewrittenIsEachPass(v);
  }

  /** The parse after the loop never fails; it yields exactly the rewritten tree. */
  lemma {:induction false} RewrittenTextParses(v: Json)
    ensures Spells(REPLACEMENTS, [USIZE, NODE_HANDLE])
    ensures JsonParse(ReplacedEach(Compact(v), REPLACEMENTS)) == Some(Collapse(Rewritten(v)))
    ensures DistinctKeys(v) ==> DistinctKeys(Rewritten(v)) && Collapse(Rewritten(v)) == Rewritten(v)
  {
    TextRewritingIsTreeRewriting(v);
    ParseStringify(Rewritten(v), []);
    if DistinctKeys(v) {
      SubstKeepsDistinctKeys(v, USIZE);
      SubstKeepsDistinctKeys(Subst(v, USIZE), NODE_HANDLE);
      CollapseDistinct(Rewritten(v));
    }
  }

  /** The two passes are one simultaneous substitution, in either order. */
  lemma RewrittenIsSimultaneous(v: Json)
    ensures Rewritten(v) == SubstBoth(v, USIZE, NODE_HANDLE)
    ensures Rewritten(v) == Subst(Subst(v, NODE_HANDLE), USIZE)
  {
    RulesAreIndependent();
    SecondPassSeesTheInput(v, USIZE, NODE_HANDLE);
    IndependentPassesCommute(v, USIZE, NODE_HANDLE);
  }

  /** Neither reference is left, so a second run of the loop does nothing. */
  lemma RewritingIsComplete(v: Json)
    ensures Count(Rewritten(v), USIZE.name) == 0 && Count(Rewritten(v), NODE_HANDLE.name) == 0
    ensures Rewritten(Rewritten(v)) == Rewritten(v)
  {
    RulesAreIndependent();
    var once := Subst(v, USIZE);
    CountAfter(v, USIZE, USIZE.name);
    CountAfter(once, NODE_HANDLE, USIZE.name);
    CountAfter(once, NODE_HANDLE, NODE_HANDLE.name);
    SubstFixesIffNoRef(Rewritten(v), USIZE);
    SubstFixesIffNoRef(Rewritten(v), NODE_HANDLE);
  }

  // ---------- Size ----------

  /** How much shorter one replaced reference makes the text. */
  function Saved(r: Rule): int {
    |From(r)| - |To(r)|
  }

  lemma Distribute(a: int, b: int, d: int)
    ensures (a + b) * d == a * d + b * d
  {
  }

  lemma {:induction false} SizeAfter(v: Json, r: Rule)
    ensures |Compact(Subst(v, r))| == |Compact(v)| - Count(v, r.name) * Saved(r)
    decreases v, 1
  {
    if v != Ref(r.name) {
      match v {
        case Arr(items) =>
          if items != [] {
            SizeAfterItems(items, r);
            CompactArr(items);
            CompactArr(SubstItems(items, r));
          }
        case Obj(ms) =>
          if ms != [] {
            SizeAfterMembers(ms, r);
            CompactObj(ms);
            CompactObj(SubstMembers(ms, r));
          }
        case _ =>
      }
    }
  }

  lemma {:induction false} SizeAfterItems(items: seq<Json>, r: Rule)
    requires items != []
    ensures |CompactItems(SubstItems(items, r))| == |CompactItems(items)| - CountItems(items, r.name) * Saved(r)
    decreases items, 0
  {
    SizeAfter(items[0], r);
    if |items| > 1 {
      SizeAfterItems(items[1..], r);
      assert SubstItems(items, r)[1..] == SubstItems(items[1..], r);
      CompactItemsStep(items);
      CompactItemsStep(SubstItems(items, r));
      Distribute(Count(items[0], r.name), CountItems(items[1..], r.name), Saved(r));
    } else {
      assert CountItems(items[1..], r.name) == 0;
    }
  }

  lemma {:induction false} SizeAfterMember(m: Member, r: Rule)
    ensures |CompactMember(Member(m.key, Subst(m.value, r)))|
         == |CompactMember(m)| - Count(m.value, r.name) * Saved(r)
    decreases m, 0
  {
    SizeAfter(m.value, r);
  }

  lemma {:induction false} SizeAfterMembers(ms: seq<Member>, r: Rule)
    requires ms != []
    ensures |CompactMembers(SubstMembers(ms, r))| == |CompactMembers(ms)| - CountMembers(ms, r.name) * Saved(r)
    decreases ms, 0
  {
    SizeAfterMember(ms[0], r);
    if |ms| > 1 {
      SizeAfterMembers(ms[1..], r);
      assert SubstMembers(ms, r)[1..] == SubstMembers(ms[1..], r);
      CompactMembersStep(ms);
      CompactMembersStep(SubstMembers(ms, r));
      Distribute(Count(ms[0].value, r.name), CountMembers(ms[1..], r.name), Saved(r));
    } else {
      assert CountMembers(ms[1..], r.name) == 0;
    }
  }

  lemma {:induction false} SavedByEntries()
    ensures Saved(USIZE) == 14 && Saved(NODE_HANDLE) == 19
  {
    UsizeEntry();
    NodeHandleEntry();
    assert |REPLACEMENTS[0].from| == 19 && |REPLACEMENTS[0].to| == 5;
    assert |REPLACEMENTS[1].from| == 24 && |REPLACEMENTS[1].to| == 5;
  }

  /** The text shrinks by 14 for each `usize` reference and by 19 for each `NodeHandle` reference of the input. */
  lemma {:induction false} RewrittenSize(v: Json)
    ensures |Compact(Rewritten(v))|
         == |Compact(v)| - 14 * Count(v, USIZE.name) - 19 * Count(v, NODE_HANDLE.name)
  {
    SavedByEntries();
    RulesAreIndependent();
    SizeAfter(v, USIZE);
    SizeAfter(Subst(v, USIZE), NODE_HANDLE);
    CountAfter(v, USIZE, NODE_HANDLE.name);
  }
}
