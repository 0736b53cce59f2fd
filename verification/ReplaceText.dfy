/** String.prototype.replaceAll with a string pattern, section 22.1.3.18 of ECMA-262 (2021). */
module ReplaceText {
  import opened JsText

  const DOLLAR: CodeUnit := 0x24

  predicate MatchAt(s: Text, p: Text, i: int) {
    0 <= i <= |s| - |p| && s[i..i + |p|] == p
  }

  predicate NoMatchIn(s: Text, p: Text, lo: int, hi: int) {
    forall i :: lo <= i < hi ==> !MatchAt(s, p, i)
  }

  /** Scanning from the left, each match found is replaced and the scan goes on after it. */
  function Replaced(s: Text, from: Text, to: Text): Text
    requires from != []
  {
    if s == [] then []
    else if from <= s then to + Replaced(s[|from|..], from, to)
    else [s[0]] + Replaced(s[1..], from, to)
  }

  lemma MatchShift(s: Text, p: Text, start: nat, i: nat)
    requires start <= |s|
    ensures MatchAt(s[start..], p, i) <==> MatchAt(s, p, start + i)
  {
  }

  lemma PrefixIsMatch(s: Text, p: Text)
    ensures p <= s <==> MatchAt(s, p, 0)
  {
  }

  /** A stretch in which no match starts is copied. */
  lemma {:induction false} ReplacedSkips(a: Text, k: Text, from: Text, to: Text)
    requires from != []
    requires NoMatchIn(a + k, from, 0, |a|)
    ensures Replaced(a + k, from, to) == a + Replaced(k, from, to)
  {
    if a == [] {
      assert a + k == k;
    } else {
      var s := a + k;
      assert s[1..] == a[1..] + k;
      forall i | 0 <= i < |a[1..]| ensures !MatchAt(a[1..] + k, from, i) {
        MatchShift(s, from, 1, i);
      }
      PrefixIsMatch(s, from);
      ReplacedSkips(a[1..], k, from, to);
    }
  }

  /** A match at the front is replaced. */
  lemma {:induction false} ReplacedMatch(k: Text, from: Text, to: Text)
    requires from != []
    ensures Replaced(from + k, from, to) == to + Replaced(k, from, to)
  {
  }

  /** The next match from `end` on, and the copying up to it. */
  lemma {:induction false} ReplacedUpTo(s: Text, from: Text, to: Text, end: nat, p: nat)
    requires from != [] && end <= p && MatchAt(s, from, p) && NoMatchIn(s, from, end, p)
    ensures Replaced(s[end..], from, to) == s[end..p] + to + Replaced(s[p + |from|..], from, to)
  {
    var a, k := s[end..p], s[p..];
    assert s[end..] == a + k;
    forall i | 0 <= i < |a| ensures !MatchAt(a + k, from, i) {
      MatchShift(s, from, end, i);
    }
    ReplacedSkips(a, k, from, to);
    assert k == from + s[p + |from|..];
    ReplacedMatch(s[p + |from|..], from, to);
  }

  lemma {:induction false} ReplacedNoMore(s: Text, from: Text, to: Text, end: nat)
    requires from != [] && end <= |s| && NoMatchIn(s, from, end, |s|)
    ensures Replaced(s[end..], from, to) == s[end..]
  {
    var a := s[end..];
    assert a == a + [];
    forall i | 0 <= i < |a| ensures !MatchAt(a + [], from, i) {
      MatchShift(s, from, end, i);
    }
    ReplacedSkips(a, [], from, to);
  }

  /** `i` is the first match at or after `start`. */
  predicate IsNext(s: Text, p: Text, start: nat, i: int) {
    start <= i && MatchAt(s, p, i) && NoMatchIn(s, p, start, i)
  }

  /** StringIndexOf: the first match at or after `start`, or -1. */
  method IndexOf(s: Text, p: Text, start: nat) returns (i: int)
    requires p != []
    ensures i == -1 ==> NoMatchIn(s, p, start, |s|)
    ensures i != -1 ==> IsNext(s, p, start, i)
  {
    i := start;
    while i + |p| <= |s|
      invariant start <= i
      invariant NoMatchIn(s, p, start, i)
    {
      if s[i..i + |p|] == p {
        return;
      }
      i := i + 1;
    }
    i := -1;
  }

  /** Where the search for match number `j` starts. */
  function SearchStart(p: Text, positions: seq<nat>, j: nat): nat
    requires j <= |positions|
  {
    if j == 0 then 0 else positions[j - 1] + |p|
  }

  predicate Successive(s: Text, p: Text, positions: seq<nat>) {
    forall j {:trigger SearchStart(p, positions, j)} :: 0 <= j < |positions| ==>
      IsNext(s, p, SearchStart(p, positions, j), positions[j])
  }

  lemma {:induction false} SuccessiveSnoc(s: Text, p: Text, positions: seq<nat>, i: nat)
    requires Successive(s, p, positions)
    requires IsNext(s, p, SearchStart(p, positions, |positions|), i)
    ensures Successive(s, p, positions + [i])
  {
    var longer := positions + [i];
    forall j | 0 <= j < |longer| ensures IsNext(s, p, SearchStart(p, longer, j), longer[j]) {
      assert SearchStart(p, longer, j) == SearchStart(p, positions, j);
      if j < |positions| {
        assert IsNext(s, p, SearchStart(p, positions, j), positions[j]);
      }
    }
  }

  /** The positions of all the successive matches. */
  method MatchPositions(s: Text, p: Text) returns (positions: seq<nat>)
    requires p != []
    ensures Successive(s, p, positions)
    ensures NoMatchIn(s, p, SearchStart(p, positions, |positions|), |s|)
  {
    positions := [];
    var position := IndexOf(s, p, 0);
    while position != -1
      invariant Successive(s, p, positions)
      invariant var start := SearchStart(p, positions, |positions|);
        if position == -1 then NoMatchIn(s, p, start, |s|) else IsNext(s, p, start, position)
      decreases if position == -1 then 0 else 1 + |s| - position
    {
      SuccessiveSnoc(s, p, positions, position);
      positions := positions + [position];
      position := IndexOf(s, p, position + |p|);
    }
  }

  /** One turn of the assembling loop: the copied stretch and the replacement. */
  lemma {:induction false} ReplaceStep(result: Text, s: Text, from: Text, to: Text, end: nat, p: nat)
    requires from != [] && IsNext(s, from, end, p)
    ensures end <= p && p + |from| <= |s|
    ensures result + s[end..p] + to + Replaced(s[p + |from|..], from, to) == result + Replaced(s[end..], from, to)
  {
    var later := Replaced(s[p + |from|..], from, to);
    ReplacedUpTo(s, from, to, end, p);
    Regroup4(result, s[end..p], to, later);
    Regroup3(s[end..p], to, later);
  }

  lemma NextMatch(s: Text, p: Text, positions: seq<nat>, j: nat)
    requires Successive(s, p, positions) && j < |positions|
    ensures IsNext(s, p, SearchStart(p, positions, j), positions[j])
    ensures SearchStart(p, positions, j + 1) == positions[j] + |p|
  {
  }

  /** The copying of what is left. */
  lemma {:induction false} ReplaceEnd(result: Text, s: Text, from: Text, to: Text, end: nat)
    requires from != [] && end <= |s| && NoMatchIn(s, from, end, |s|)
    ensures result + Replaced(s[end..], from, to) == if end < |s| then result + s[end..] else result
  {
    ReplacedNoMore(s, from, to, end);
  }

  /** One pass over the match positions assembles the result.
      The replacement must not hold a `$`, which would be read as a substitution pattern. */
  method ReplaceAll(s: Text, from: Text, to: Text) returns (result: Text)
    requires from != []
    requires DOLLAR !in to
    ensures result == Replaced(s, from, to)
  {
    hide MatchAt, NoMatchIn, Replaced, Successive;
    var positions := MatchPositions(s, from);
    var endOfLastMatch: nat := 0;
    result := [];
    ghost var whole := Replaced(s, from, to);
    assert s[0..] == s;
    for j := 0 to |positions|
      invariant endOfLastMatch == SearchStart(from, positions, j) <= |s|
      invariant result + Replaced(s[endOfLastMatch..], from, to) == whole
    {
      var p := positions[j];
      NextMatch(s, from, positions, j);
      ReplaceStep(result, s, from, to, endOfLastMatch, p);
      result := result + s[endOfLastMatch..p] + to;
      endOfLastMatch := p + |from|;
    }
    ReplaceEnd(result, s, from, to, endOfLastMatch);
    if endOfLastMatch < |s| {
      result := result + s[endOfLastMatch..];
    }
  }
}
