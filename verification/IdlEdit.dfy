/** The instruction-list edit of convert.ts, on the JSON tree of the IDL. */
module IdlEdit {
  import opened JsText
  import opened Json
  import opened Stringify

  const NAME := U("name")
  const ACCOUNTS := U("accounts")
  const INSTRUCTIONS := U("instructions")
  const CREATE_MARKET := U("createMarket")

  // ---------- The inserted accounts and instructions ----------

  function Account(name: string, isMut: bool, isSigner: bool): Json {
    Obj([Member(NAME, Str(U(name))), Member(U("isMut"), Bool(isMut)), Member(U("isSigner"), Bool(isSigner))])
  }

  function OptionalAccount(name: string, isMut: bool, isSigner: bool): Json {
    Obj([Member(NAME, Str(U(name))), Member(U("isMut"), Bool(isMut)), Member(U("isSigner"), Bool(isSigner)),
         Member(U("isOptional"), Bool(true))])
  }

  function Argument(name: string, ty: Json): Json {
    Obj([Member(NAME, Str(U(name))), Member(U("type"), ty)])
  }

  function Lines(docs: seq<string>): Json {
    Arr(seq(|docs|, i requires 0 <= i < |docs| => Str(U(docs[i]))))
  }

  function Instruction(name: string, docs: seq<string>, accounts: seq<Json>, args: seq<Json>): Json {
    Obj([Member(NAME, Str(U(name))), Member(U("docs"), Lines(docs)),
         Member(ACCOUNTS, Arr(accounts)), Member(U("args"), Arr(args))])
  }

  const EVENT_AUTHORITY := Account("eventAuthority", false, false)
  const PROGRAM := Account("program", false, false)

  const CONSUME_ACCOUNTS := [
    OptionalAccount("consumeEventsAdmin", false, true),
    Account("market", true, false),
    Account("eventHeap", true, false)
  ]

  const CONSUME_EVENTS_DOCS := [
    "Process up to `limit` [events](crate::state::AnyEvent).",
    "",
    "When a user places a 'take' order, they do not know beforehand which",
    "market maker will have placed the 'make' order that they get executed",
    "against. This prevents them from passing in a market maker's",
    "[`OpenOrdersAccount`](crate::state::OpenOrdersAccount), which is needed",
    "to credit/debit the relevant tokens to/from the maker. As such, Openbook",
    "uses a 'crank' system, where `place_order` only emits events, and",
    "`consume_events` handles token settlement.",
    "",
    "Currently, there are two types of events: [`FillEvent`](crate::state::FillEvent)s",
    "and [`OutEvent`](crate::state::OutEvent)s.",
    "",
    "A `FillEvent` is emitted when an order is filled, and it is handled by",
    "debiting whatever the taker is selling from the taker and crediting",
    "it to the maker, and debiting whatever the taker is buying from the",
    "maker and crediting it to the taker. Note that *no tokens are moved*,",
    "these are just debits and credits to each party's [`Position`](crate::state::Position).",
    "",
    "An `OutEvent` is emitted when a limit order needs to be removed from",
    "the book during a `place_order` invocation, and it is handled by",
    "crediting whatever the maker would have sold (quote token in a bid,",
    "base token in an ask) back to the maker."
  ]

  const CONSUME_GIVEN_EVENTS_DOCS := ["Process the [events](crate::state::AnyEvent) at the given positions."]

  const CONSUME_EVENTS :=
    Instruction("consumeEvents", CONSUME_EVENTS_DOCS, CONSUME_ACCOUNTS, [Argument("limit", Str(U("u64")))])

  const CONSUME_GIVEN_EVENTS :=
    Instruction("consumeGivenEvents",
                CONSUME_GIVEN_EVENTS_DOCS,
                CONSUME_ACCOUNTS,
                [Argument("slots", Obj([Member(U("vec"), Str(U("u64")))]))])

  // ---------- JavaScript operations on the list ----------

  /** `v.name === name`, for a `v` that is not null. */
  predicate NameIs(v: Json, name: Text) {
    v.Obj? && Lookup(v.members, NAME) == Some(Str(name))
  }

  /** What an expression gives: a TypeError, undefined, or a value. */
  datatype Outcome<+T> = Thrown | NotFound | Done(value: T)

  /** `items.find(i => i.name === name)`: reading a property of null throws. */
  function Find(items: seq<Json>, name: Text): Outcome<Json> {
    if items == [] then NotFound
    else if items[0].Null? then Thrown
    else if NameIs(items[0], name) then Done(items[0])
    else Find(items[1..], name)
  }

  /** `items.filter(i => i.name !== name)` */
  function Without(items: seq<Json>, name: Text): Outcome<seq<Json>> {
    if items == [] then Done([])
    else if items[0].Null? then Thrown
    else match Without(items[1..], name)
      case Done(rest) => Done(if NameIs(items[0], name) then rest else [items[0]] + rest)
      case failed => failed
  }

  /** The code points of a string, as the strings that iterating over it yields. */
  function CodePoints(s: Text): seq<Json> {
    if s == [] then []
    else if |s| >= 2 && IsHighSurrogate(s[0]) && IsLowSurrogate(s[1]) then [Str(s[..2])] + CodePoints(s[2..])
    else [Str(s[..1])] + CodePoints(s[1..])
  }

  /** The code points of a string make up the string, and each is a surrogate pair or one unit. */
  lemma {:induction false} CodePointsJoin(s: Text)
    ensures forall i :: 0 <= i < |CodePoints(s)| ==> CodePoints(s)[i].Str?
    ensures ConcatMap((v: Json) => if v.Str? then v.s else [], CodePoints(s)) == s
    ensures forall i :: 0 <= i < |CodePoints(s)| ==>
      var p := CodePoints(s)[i].s;
      |p| == 1 || (|p| == 2 && IsHighSurrogate(p[0]) && IsLowSurrogate(p[1]))
    decreases |s|
  {
    if s == [] {
    } else if |s| >= 2 && IsHighSurrogate(s[0]) && IsLowSurrogate(s[1]) {
      CodePointsJoin(s[2..]);
      assert CodePoints(s)[1..] == CodePoints(s[2..]);
    } else {
      CodePointsJoin(s[1..]);
      assert CodePoints(s)[1..] == CodePoints(s[1..]);
    }
  }

  /** `[...v]`: only arrays and strings can be iterated; anything else throws. */
  function Spread(v: Option<Json>): Option<seq<Json>> {
    match v
    case Some(Arr(items)) => Some(items)
    case Some(Str(s)) => Some(CodePoints(s))
    case _ => None
  }

  // ---------- The edit ----------

  function WithAccounts(instruction: Json, accounts: seq<Json>): Json
    requires instruction.Obj?
  {
    Obj(Put(instruction.members, ACCOUNTS, Arr(accounts)))
  }

  /** Finds createMarket, extends its accounts, moves it to the front and appends two instructions. */
  function EditList(items: seq<Json>): Outcome<seq<Json>> {
    match Find(items, CREATE_MARKET)
    case Thrown => Thrown
    case NotFound => NotFound
    case Done(createMarket) =>
      match Without(items, CREATE_MARKET)
      case Done(others) =>
        FoundIsNamed(items, CREATE_MARKET);
        (match Spread(Lookup(createMarket.members, ACCOUNTS))
         case None => Thrown
         case Some(accounts) =>
           var extended := WithAccounts(createMarket, accounts + [EVENT_AUTHORITY, PROGRAM]);
           Done([extended] + others + [CONSUME_EVENTS, CONSUME_GIVEN_EVENTS]))
      case failed => failed
  }

  function WithInstructions(idl: Json, items: seq<Json>): Json
    requires idl.Obj?
  {
    Obj(Put(idl.members, INSTRUCTIONS, Arr(items)))
  }

  /** The instruction list of an IDL, if it has one to search. */
  function InstructionsOf(idl: Json): Option<seq<Json>> {
    if !idl.Obj? then None
    else match Lookup(idl.members, INSTRUCTIONS)
      case Some(Arr(items)) => Some(items)
      case _ => None
  }

  function EditIdl(idl: Json): Outcome<Json> {
    match InstructionsOf(idl)
    case None => Thrown
    case Some(items) =>
      match EditList(items)
      case Thrown => Thrown
      case NotFound => NotFound
      case Done(edited) => Done(WithInstructions(idl, edited))
  }

  // ---------- What the search finds ----------

  lemma {:induction false} FoundIsNamed(items: seq<Json>, name: Text)
    requires Find(items, name).Done?
    ensures NameIs(Find(items, name).value, name)
  {
    if !NameIs(items[0], name) {
      FoundIsNamed(items[1..], name);
    }
  }

  predicate NoNulls(items: seq<Json>) {
    forall i :: 0 <= i < |items| ==> !items[i].Null?
  }

  /** `items[c]` is the only item with the name. */
  predicate OnlyNamed(items: seq<Json>, name: Text, c: int) {
    0 <= c < |items| && forall i :: 0 <= i < |items| ==> (NameIs(items[i], name) <==> i == c)
  }

  function CountNamed(items: seq<Json>, name: Text): nat {
    if items == [] then 0 else (if NameIs(items[0], name) then 1 else 0) + CountNamed(items[1..], name)
  }

  /** A filter throws exactly on a null, and otherwise loses exactly the named items. */
  lemma {:induction false} WithoutOutcome(items: seq<Json>, name: Text)
    ensures Without(items, name).Done? <==> NoNulls(items)
    ensures Without(items, name).Thrown? <==> !NoNulls(items)
    ensures NoNulls(items) ==> |Without(items, name).value| == |items| - CountNamed(items, name)
  {
    if items != [] {
      WithoutOutcome(items[1..], name);
      assert NoNulls(items) <==> !items[0].Null? && NoNulls(items[1..]) by {
        assert forall i :: 0 < i < |items| ==> items[i] == items[1..][i - 1];
      }
    }
  }

  lemma {:induction false} FindOutcome(items: seq<Json>, name: Text)
    requires NoNulls(items)
    ensures Find(items, name).Done? <==> CountNamed(items, name) > 0
    ensures Find(items, name).NotFound? <==> CountNamed(items, name) == 0
  {
    if items != [] && !NameIs(items[0], name) {
      FindOutcome(items[1..], name);
    }
  }

  lemma {:induction false} FindThrowsOnNull(items: seq<Json>, name: Text)
    ensures Find(items, name).NotFound? ==> NoNulls(items) && CountNamed(items, name) == 0
    ensures Find(items, name).Thrown? ==> !NoNulls(items)
  {
    if items != [] && !items[0].Null? && !NameIs(items[0], name) {
      FindThrowsOnNull(items[1..], name);
      assert forall i :: 0 < i < |items| ==> items[i] == items[1..][i - 1];
    }
  }

  /** The search finds the first item with the name, and the filter keeps all before it. */
  lemma {:induction false} FindFirst(items: seq<Json>, name: Text, c: nat)
    requires NoNulls(items) && c < |items| && NameIs(items[c], name)
    requires forall i :: 0 <= i < c ==> !NameIs(items[i], name)
    ensures Find(items, name) == Done(items[c])
    ensures Without(items[c + 1..], name).Done? && Without(items, name).Done?
    ensures Without(items, name).value == items[..c] + Without(items[c + 1..], name).value
  {
    WithoutOutcome(items, name);
    WithoutOutcome(items[c + 1..], name);
    if c > 0 {
      var rest := items[1..];
      assert forall i :: 0 <= i < |rest| ==> rest[i] == items[i + 1];
      FindFirst(rest, name, c - 1);
      assert rest[c..] == items[c + 1..];
      assert [items[0]] + rest[..c - 1] == items[..c];
    }
  }

  lemma {:induction false} FindIn(items: seq<Json>, name: Text)
    requires Find(items, name).Done?
    ensures Find(items, name).value in items
  {
    if !NameIs(items[0], name) {
      FindIn(items[1..], name);
    }
  }

  /** What is kept is what has another name. */
  lemma {:induction false} WithoutIn(items: seq<Json>, name: Text)
    requires Without(items, name).Done?
    ensures forall x :: x in Without(items, name).value <==> x in items && !NameIs(x, name)
  {
    if items != [] {
      WithoutIn(items[1..], name);
    }
  }

  /** A filter treats the parts of a list separately, so it keeps the relative order. */
  lemma {:induction false} WithoutConcat(a: seq<Json>, b: seq<Json>, name: Text)
    requires Without(a, name).Done? && Without(b, name).Done?
    ensures Without(a + b, name) == Done(Without(a, name).value + Without(b, name).value)
  {
    if a == [] {
      assert a + b == b;
      assert [] + Without(b, name).value == Without(b, name).value;
    } else {
      assert (a + b)[1..] == a[1..] + b;
      WithoutConcat(a[1..], b, name);
      var x, y := Without(a[1..], name).value, Without(b, name).value;
      assert [a[0]] + (x + y) == ([a[0]] + x) + y;
    }
  }

  lemma DropBehindFirst(items: seq<Json>, c: nat)
    requires 0 < c < |items|
    ensures [items[0]] + (items[1..][..c - 1] + items[1..][c..]) == items[..c] + items[c + 1..]
  {
  }

  lemma {:induction false} FindOnly(items: seq<Json>, name: Text, c: int)
    requires NoNulls(items) && OnlyNamed(items, name, c)
    ensures Find(items, name) == Done(items[c])
    ensures Without(items, name) == Done(items[..c] + items[c + 1..])
    ensures CountNamed(items, name) == 1
  {
    var rest := items[1..];
    assert forall i :: 0 <= i < |rest| ==> rest[i] == items[i + 1];
    if c == 0 {
      WithoutNone(rest, name);
      assert items[..0] + items[1..] == rest;
    } else {
      assert OnlyNamed(rest, name, c - 1);
      FindOnly(rest, name, c - 1);
      DropBehindFirst(items, c);
    }
  }

  lemma {:induction false} WithoutNone(items: seq<Json>, name: Text)
    requires NoNulls(items) && forall i :: 0 <= i < |items| ==> !NameIs(items[i], name)
    ensures Without(items, name) == Done(items)
    ensures CountNamed(items, name) == 0
  {
    if items != [] {
      WithoutNone(items[1..], name);
      assert [items[0]] + items[1..] == items;
    }
  }

  // ---------- Conservation, order and loss ----------

  /** Whether or not createMarket is unique: its first occurrence comes first, with two more accounts;
      then all instructions before it, unchanged; then those behind it that have another name, in order;
      then the two consume instructions. */
  lemma {:induction false} EditTakesFirst(items: seq<Json>, c: nat, accounts: seq<Json>)
    requires NoNulls(items) && c < |items| && NameIs(items[c], CREATE_MARKET)
    requires forall i :: 0 <= i < c ==> !NameIs(items[i], CREATE_MARKET)
    requires Spread(Lookup(items[c].members, ACCOUNTS)) == Some(accounts)
    ensures Without(items[c + 1..], CREATE_MARKET).Done?
    ensures EditList(items)
         == Done([WithAccounts(items[c], accounts + [EVENT_AUTHORITY, PROGRAM])]
                 + (items[..c] + Without(items[c + 1..], CREATE_MARKET).value) + [CONSUME_EVENTS, CONSUME_GIVEN_EVENTS])
  {
    FindFirst(items, CREATE_MARKET, c);
  }

  /** With one createMarket: it comes first, with two more accounts; then all other
      instructions, unchanged and in order; then the two consume instructions. */
  lemma {:induction false} EditKeepsTheOthers(items: seq<Json>, c: int, accounts: seq<Json>)
    requires NoNulls(items) && OnlyNamed(items, CREATE_MARKET, c)
    requires Spread(Lookup(items[c].members, ACCOUNTS)) == Some(accounts)
    ensures EditList(items)
         == Done([WithAccounts(items[c], accounts + [EVENT_AUTHORITY, PROGRAM])]
                 + (items[..c] + items[c + 1..]) + [CONSUME_EVENTS, CONSUME_GIVEN_EVENTS])
  {
    FindOnly(items, CREATE_MARKET, c);
  }

  /** An edited list has two more instructions than the input exactly when createMarket was unique;
      otherwise the surplus createMarket instructions are lost. */
  lemma {:induction false} EditLosesDuplicates(items: seq<Json>)
    requires EditList(items).Done?
    ensures var grown := |EditList(items).value| - |items|;
      grown == 3 - CountNamed(items, CREATE_MARKET) && grown <= 2
      && (grown == 2 <==> CountNamed(items, CREATE_MARKET) == 1)
  {
    WithoutOutcome(items, CREATE_MARKET);
    FindOutcome(items, CREATE_MARKET);
  }

  /** The `accounts` of the first createMarket. */
  function AccountsOf(items: seq<Json>): Option<Json> {
    match Find(items, CREATE_MARKET)
    case Done(createMarket) => if createMarket.Obj? then Lookup(createMarket.members, ACCOUNTS) else None
    case _ => None
  }

  /** Exactly when the edit is made, skipped, or ends in a TypeError. */
  lemma {:induction false} EditListOutcome(items: seq<Json>)
    ensures EditList(items).NotFound? <==> NoNulls(items) && CountNamed(items, CREATE_MARKET) == 0
    ensures EditList(items).Done? <==>
      NoNulls(items) && CountNamed(items, CREATE_MARKET) > 0 && Spread(AccountsOf(items)).Some?
  {
    WithoutOutcome(items, CREATE_MARKET);
    FindThrowsOnNull(items, CREATE_MARKET);
    if NoNulls(items) {
      FindOutcome(items, CREATE_MARKET);
    }
    if Find(items, CREATE_MARKET).Done? {
      FoundIsNamed(items, CREATE_MARKET);
    }
  }
}
