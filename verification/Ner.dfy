/** Dictionary tagger of modules/news-pipeline/src/ner.cpp: greedy longest-match over a bitmap. */
module Ner {
  import opened Text

  datatype Company = Company(corp: string, ticker: string)

  datatype Mention = Mention(ticker: string, corp: string, span: Span)

  // ----- What one alias visits -----

  function End(q: nat, a: string): nat {
    q + |a|
  }

  /** Positions the scan for `a` stops at: each occurrence found, then on from its end. */
  function Visited(body: string, a: string, p: nat): seq<nat>
    requires a != ""
    decreases |body| - p
  {
    match Find(body, a, p)
    case None => []
    case Some(q) => [q] + Visited(body, a, End(q, a))
  }

  lemma {:induction false} NextVisit(body: string, a: string, p: nat, q: nat, end: nat) returns (later: seq<nat>)
    requires a != "" && Find(body, a, p) == Some(q) && end == q + |a|
    ensures later == Visited(body, a, end) && Visited(body, a, p) == [q] + later
  {
    assert end == End(q, a);
    later := Visited(body, a, end);
  }

  lemma {:induction false} VisitedAreOccurrences(body: string, a: string, p: nat, v: nat)
    requires a != "" && v in Visited(body, a, p)
    ensures p <= v && At(body, a, v)
    decreases |body| - p
  {
    var q := Find(body, a, p).value;
    var end := q + |a|;
    var later := NextVisit(body, a, p, q, end);
    if v in later {
      VisitedAreOccurrences(body, a, end, v);
    }
  }

  /** Visited occurrences of one alias never overlap each other. */
  lemma {:induction false} VisitedApart(body: string, a: string, p: nat, v: nat, w: nat)
    requires a != "" && v in Visited(body, a, p) && w in Visited(body, a, p) && v < w
    ensures v + |a| <= w
    decreases |body| - p
  {
    var q := Find(body, a, p).value;
    var end := q + |a|;
    var later := NextVisit(body, a, p, q, end);
    if w in later {
      VisitedAreOccurrences(body, a, end, w);
    }
    if v in later {
      VisitedAreOccurrences(body, a, end, v);
      if w in later {
        VisitedApart(body, a, end, v, w);
      }
    }
  }

  /** An occurrence the scan skips starts strictly inside an earlier visited one. */
  lemma {:induction false} SkippedOnlyInsideVisited(body: string, a: string, p: nat, q: nat)
    requires a != "" && p <= q && At(body, a, q)
    ensures q in Visited(body, a, p) || exists v :: v in Visited(body, a, p) && v < q < v + |a|
    decreases |body| - p
  {
    var f := Find(body, a, p).value;
    var end := f + |a|;
    var later := NextVisit(body, a, p, f, end);
    assert f in [f] + later;
    if q >= end {
      SkippedOnlyInsideVisited(body, a, end, q);
      if v :| v in later && v < q < v + |a| {
        assert v in [f] + later;
      }
    }
  }

  /** No proper nonempty prefix of `a` is also a suffix. */
  predicate Borderless(a: string) {
    forall k | 0 < k < |a| :: a[..k] != a[|a| - k..]
  }

  /** Two overlapping occurrences of one alias give it a border. */
  lemma {:induction false} SelfOverlapIsBorder(body: string, a: string, v: nat, q: nat)
    requires At(body, a, v) && At(body, a, q) && v < q < v + |a|
    ensures !Borderless(a)
  {
    var k := v + |a| - q;
    var shared := body[q..v + |a|];
    assert a[|a| - k..] == body[v..v + |a|][q - v..] == shared;
    assert a[..k] == body[q..q + |a|][..k] == shared;
  }

  lemma {:induction false} BorderlessAllVisited(body: string, a: string, q: nat)
    requires a != "" && Borderless(a) && At(body, a, q)
    ensures q in Visited(body, a, 0)
  {
    SkippedOnlyInsideVisited(body, a, 0, q);
    if v :| v in Visited(body, a, 0) && v < q < v + |a| {
      VisitedAreOccurrences(body, a, 0, v);
      SelfOverlapIsBorder(body, a, v, q);
    }
  }

  // ----- What a whole pass claims -----

  predicate Free(s: Span, taken: set<Span>) {
    forall t | t in taken :: !Overlap(s, t)
  }

  /** Of the spans of length `n` at the given visits, those disjoint from what is taken. */
  function ClaimsAt(visits: seq<nat>, n: nat, taken: set<Span>): set<Span> {
    set p | p in visits && Free(Span(p, p + n), taken) :: Span(p, p + n)
  }

  /** What the scan for `a` claims when `taken` is already consumed. */
  function Claims(body: string, a: string, taken: set<Span>): set<Span>
    requires a != ""
  {
    ClaimsAt(Visited(body, a, 0), |a|, taken)
  }

  /** All spans claimed when the aliases are scanned in the given order. */
  function Winners(body: string, order: seq<string>): set<Span> {
    if order == [] then {}
    else
      var a, w := order[|order| - 1], Winners(body, order[..|order| - 1]);
      if a == "" then w else w + Claims(body, a, w)
  }

  /** A visited occurrence of some dictionary alias. */
  predicate Candidate(body: string, keys: set<string>, s: Span) {
    && s.start < s.end <= |body|
    && body[s.start..s.end] in keys
    && s.start in Visited(body, body[s.start..s.end], 0)
  }

  function Keys(order: seq<string>): set<string> {
    set a | a in order
  }

  /** An order std::sort may leave the keys in: all of them once, lengths descending, ties any way. */
  ghost predicate IsAliasOrder(order: seq<string>, keys: set<string>) {
    && Keys(order) == keys
    && (forall i, j | 0 <= i < j < |order| :: order[i] != order[j])
    && (forall i, j | 0 <= i < j < |order| :: |order[i]| >= |order[j]|)
  }

  lemma {:induction false} ClaimSpansAlias(body: string, a: string, p: nat)
    requires a != "" && p in Visited(body, a, 0)
    ensures p + |a| <= |body| && body[p..p + |a|] == a
  {
    VisitedAreOccurrences(body, a, 0, p);
  }

  /** Every winner is a visited alias occurrence. */
  lemma {:induction false} WinnersAreCandidates(body: string, order: seq<string>, s: Span)
    requires s in Winners(body, order)
    ensures Candidate(body, Keys(order), s)
  {
    var n := |order| - 1;
    if s in Winners(body, order[..n]) {
      WinnersAreCandidates(body, order[..n], s);
      assert Keys(order[..n]) <= Keys(order);
    } else {
      ClaimSpansAlias(body, order[n], s.start);
    }
  }

  lemma {:induction false} ClaimsApart(body: string, a: string, taken: set<Span>, s: Span, t: Span)
    requires a != "" && s in Claims(body, a, taken) && t in Claims(body, a, taken) && s != t
    ensures !Overlap(s, t)
  {
    if s.start < t.start {
      VisitedApart(body, a, 0, s.start, t.start);
    } else {
      VisitedApart(body, a, 0, t.start, s.start);
    }
  }

  /** Distinct winners are disjoint. */
  lemma {:induction false} WinnersDisjoint(body: string, order: seq<string>, s: Span, t: Span)
    requires s in Winners(body, order) && t in Winners(body, order) && s != t
    ensures !Overlap(s, t)
  {
    var n := |order| - 1;
    var w := Winners(body, order[..n]);
    if s in w && t in w {
      WinnersDisjoint(body, order[..n], s, t);
    } else if s !in w && t !in w {
      ClaimsApart(body, order[n], w, s, t);
    }
  }

  lemma {:induction false} WinnersSound(body: string, order: seq<string>)
    ensures forall s | s in Winners(body, order) :: Candidate(body, Keys(order), s)
    ensures forall s, t | s in Winners(body, order) && t in Winners(body, order) && s != t :: !Overlap(s, t)
  {
    forall s | s in Winners(body, order)
      ensures Candidate(body, Keys(order), s)
    {
      WinnersAreCandidates(body, order, s);
    }
    forall s, t | s in Winners(body, order) && t in Winners(body, order) && s != t
      ensures !Overlap(s, t)
    {
      WinnersDisjoint(body, order, s, t);
    }
  }

  lemma {:induction false} WinnersGrow(body: string, order: seq<string>, k: nat)
    requires k <= |order|
    ensures Winners(body, order[..k]) <= Winners(body, order)
    decreases |order| - k
  {
    if k == |order| {
      assert order[..k] == order;
    } else {
      WinnersGrow(body, order, k + 1);
      assert order[..k + 1][..k] == order[..k];
    }
  }

  /** A candidate of the k-th alias wins unless an alias scanned before it took an overlapping span. */
  lemma {:induction false} LostToEarlier(body: string, order: seq<string>, k: nat, s: Span)
    requires k < |order| && Candidate(body, Keys(order), s) && body[s.start..s.end] == order[k]
    ensures Free(s, Winners(body, order[..k])) ==> s in Winners(body, order)
  {
    var w := Winners(body, order[..k]);
    assert order[..k + 1][..k] == order[..k];
    assert s == Span(s.start, s.start + |order[k]|);
    if Free(s, w) {
      assert s in Claims(body, order[k], w);
      WinnersGrow(body, order, k + 1);
    }
  }

  lemma {:induction false} IndexOf(order: seq<string>, a: string) returns (k: nat)
    requires a in order
    ensures k < |order| && order[k] == a
  {
    k :| k < |order| && order[k] == a;
  }

  /** Maximality: a candidate is a winner or overlaps a different winner at least as long. */
  lemma {:induction false} CandidateWinsOrIsCovered(body: string, keys: set<string>, order: seq<string>, s: Span)
    requires IsAliasOrder(order, keys) && Candidate(body, keys, s)
    ensures s in Winners(body, order)
            || exists t :: t in Winners(body, order) && t != s && Overlap(s, t) && Len(t) >= Len(s)
  {
    var k := IndexOf(order, body[s.start..s.end]);
    LostToEarlier(body, order, k, s);
    var w := Winners(body, order[..k]);
    if !Free(s, w) {
      var t :| t in w && Overlap(s, t);
      WinnersSound(body, order[..k]);
      WinnersGrow(body, order, k);
      var j := IndexOf(order[..k], body[t.start..t.end]);
      assert |order[j]| >= |order[k]|;
      assert t in Winners(body, order) && t != s && Overlap(s, t) && Len(t) >= Len(s);
    }
  }

  /** The longest-match promise: every occurrence of a borderless alias is tagged, or something at
      least as long that overlaps it is. */
  lemma {:induction false} BorderlessOccurrencesTagged(body: string, keys: set<string>, order: seq<string>, a: string,
                                                       p: nat)
    requires IsAliasOrder(order, keys) && a in keys && a != "" && Borderless(a) && At(body, a, p)
    ensures var s := Span(p, p + |a|);
            s in Winners(body, order)
            || exists t :: t in Winners(body, order) && t != s && Overlap(s, t) && Len(t) >= Len(s)
  {
    BorderlessAllVisited(body, a, p);
    CandidateWinsOrIsCovered(body, keys, order, Span(p, p + |a|));
  }

  /** Any occurrence at all: tagged, or overlapped by a tag at least as long, or starting inside an
      earlier visited occurrence of the same alias. */
  lemma {:induction false} OccurrencesTaggedOrSkipped(body: string, keys: set<string>, order: seq<string>, a: string,
                                                      p: nat)
    requires IsAliasOrder(order, keys) && a in keys && a != "" && At(body, a, p)
    ensures var s := Span(p, p + |a|);
            || s in Winners(body, order)
            || (exists t :: t in Winners(body, order) && t != s && Overlap(s, t) && Len(t) >= Len(s))
            || (exists v :: v in Visited(body, a, 0) && v < p < v + |a|)
  {
    SkippedOnlyInsideVisited(body, a, 0, p);
    if p in Visited(body, a, 0) {
      CandidateWinsOrIsCovered(body, keys, order, Span(p, p + |a|));
    }
  }

  lemma {:induction false} MissedExampleVisits()
    ensures Visited("xxababa", "xxab", 0) == [0]
    ensures Visited("xxababa", "aba", 0) == [2] && At("xxababa", "aba", 4)
  {
    var body := "xxababa";
    forall p: nat
      ensures At(body, "xxab", p) <==> p == 0
      ensures At(body, "aba", p) <==> p == 2 || p == 4
    {
      if p + 3 <= |body| {
        assert body[p..p + 3] == [body[p], body[p + 1], body[p + 2]];
      }
      if p + 4 <= |body| {
        assert body[p..p + 4] == [body[p], body[p + 1], body[p + 2], body[p + 3]];
      }
    }
    assert Find(body, "xxab", 0) == Some(0) && Find(body, "xxab", 4) == None;
    assert Find(body, "aba", 0) == Some(2) && Find(body, "aba", 5) == None;
    assert Visited(body, "xxab", 4) == [] && Visited(body, "aba", 5) == [];
  }

  lemma {:induction false} MissedExampleCandidates()
    ensures forall s | Candidate("xxababa", {"xxab", "aba"}, s) :: s == Span(0, 4) || s == Span(2, 5)
    ensures Candidate("xxababa", {"xxab", "aba"}, Span(0, 4))
  {
    var body := "xxababa";
    MissedExampleVisits();
    forall s | Candidate(body, {"xxab", "aba"}, s)
      ensures s == Span(0, 4) || s == Span(2, 5)
    {
      assert body[s.start..s.end] == "xxab" || body[s.start..s.end] == "aba";
    }
    assert body[0..4] == "xxab";
  }

  /** A refused shorter candidate leaves its bytes outside the longer one to nobody. */
  lemma {:induction false} RefusedLeavesGap(body: string, keys: set<string>, order: seq<string>, long: Span,
                                            short: Span)
    requires IsAliasOrder(order, keys) && Candidate(body, keys, long)
    requires forall s | Candidate(body, keys, s) :: s == long || s == short
    requires Len(short) < Len(long) && Overlap(long, short)
    ensures Winners(body, order) == {long}
  {
    WinnersSound(body, order);
    CandidateWinsOrIsCovered(body, keys, order, long);
  }

  /** An alias with a border can lose an occurrence no hit touches: the scan jumps to the end of an
      earlier occurrence even when that one was refused. */
  lemma {:induction false} BorderedOccurrenceCanBeMissed(order: seq<string>)
    requires IsAliasOrder(order, {"xxab", "aba"})
    ensures At("xxababa", "aba", 4)
    ensures forall s | s in Winners("xxababa", order) :: !Overlap(s, Span(4, 7))
  {
    MissedExampleVisits();
    MissedExampleCandidates();
    RefusedLeavesGap("xxababa", {"xxab", "aba"}, order, Span(0, 4), Span(2, 5));
  }

  /** The longest-match promise for one span. */
  ghost predicate TaggedOrCovered(body: string, order: seq<string>, s: Span) {
    || s in Winners(body, order)
    || exists t :: t in Winners(body, order) && t != s && Overlap(s, t) && Len(t) >= Len(s)
  }

  /** The promise for an alias, in every body and dictionary and under every order. */
  ghost predicate AlwaysTagged(a: string) {
    forall body, keys, order, p: nat | IsAliasOrder(order, keys) && a in keys && At(body, a, p) ::
      TaggedOrCovered(body, order, Span(p, p + |a|))
  }

  /** A body that loses an occurrence of an alias with a border of length |a| - shift: a run of another
      character, and two overlapping occurrences, the first of them refused for a longer alias. */
  datatype Loss = Loss(a: string, shift: nat, fill: string) {
    ghost predicate Valid() {
      && 0 < shift < |a| && a[..|a| - shift] == a[shift..]
      && |fill| == shift + |a| + 1 && forall i | 0 <= i < |fill| :: fill[i] != a[0]
    }

    function Body(): string
      requires shift <= |a|
    {
      fill + a[..shift] + a
    }

    function Long(): string
      requires a != ""
    {
      fill + a[..1]
    }
  }

  lemma {:induction false} InMiddle(before: string, a: string, behind: string, body: string)
    requires body == before + a + behind
    ensures At(body, a, |before|)
  {
  }

  lemma {:induction false} BorderRepeats(a: string, shift: nat, pair: string)
    requires 0 < shift < |a| && a[..|a| - shift] == a[shift..] && pair == a[..shift] + a
    ensures pair[..|a|] == a
  {
    assert pair[..|a|] == a[..shift] + a[..|a| - shift];
    assert a == a[..shift] + a[shift..];
  }

  lemma {:induction false} LossFirst(l: Loss)
    requires l.Valid()
    ensures At(l.Body(), l.a, |l.fill|)
  {
    var pair := l.a[..l.shift] + l.a;
    BorderRepeats(l.a, l.shift, pair);
    assert pair == l.a + pair[|l.a|..];
    assert l.Body() == l.fill + pair == l.fill + l.a + pair[|l.a|..];
    InMiddle(l.fill, l.a, pair[|l.a|..], l.Body());
  }

  lemma {:induction false} LossSecond(l: Loss)
    requires l.Valid()
    ensures At(l.Body(), l.a, |l.fill| + l.shift)
  {
    assert l.Body() == l.fill + l.a[..l.shift] + l.a + "";
    InMiddle(l.fill + l.a[..l.shift], l.a, "", l.Body());
  }

  lemma {:induction false} LossLong(l: Loss)
    requires l.Valid()
    ensures At(l.Body(), l.Long(), 0)
  {
    assert l.Body()[..|l.fill| + 1] == l.Long();
  }

  lemma {:induction false} LossShape(l: Loss)
    requires l.Valid()
    ensures var body, n := l.Body(), |l.fill|;
            && |body| == n + l.shift + |l.a|
            && (forall q | 0 <= q < n :: body[q] == l.fill[q]) && body[n] == l.a[0]
            && At(body, l.a, n) && At(body, l.a, n + l.shift) && At(body, l.Long(), 0)
  {
    LossFirst(l);
    LossSecond(l);
    LossLong(l);
  }

  /** A character of an occurrence is that of the alias. */
  lemma {:induction false} CharAt(body: string, a: string, q: nat, i: nat)
    requires At(body, a, q) && i < |a|
    ensures body[q + i] == a[i]
  {
    assert body[q..q + |a|][i] == body[q + i];
  }

  lemma {:induction false} LossLongAlone(l: Loss, q: nat)
    requires l.Valid() && At(l.Body(), l.Long(), q)
    ensures q == 0
  {
    LossShape(l);
    var n := |l.fill|;
    if 0 < q <= n {
      CharAt(l.Body(), l.Long(), q, n - q);
    }
  }

  lemma {:induction false} LossNotBefore(l: Loss, q: nat)
    requires l.Valid() && q < |l.fill|
    ensures !At(l.Body(), l.a, q)
  {
    LossShape(l);
    if At(l.Body(), l.a, q) {
      CharAt(l.Body(), l.a, q, 0);
    }
  }

  lemma {:induction false} FirstOccurrence(body: string, a: string, n: nat)
    requires At(body, a, n) && forall q: nat | q < n :: !At(body, a, q)
    ensures Find(body, a, 0) == Some(n)
  {
  }

  lemma {:induction false} LossFoundAt(l: Loss)
    requires l.Valid()
    ensures Find(l.Body(), l.a, 0) == Some(|l.fill|)
  {
    forall q: nat | q < |l.fill|
      ensures !At(l.Body(), l.a, q)
    {
      LossNotBefore(l, q);
    }
    LossFirst(l);
    FirstOccurrence(l.Body(), l.a, |l.fill|);
  }

  lemma {:induction false} LossNoneBehind(l: Loss, body: string, end: nat)
    requires l.Valid() && body == l.Body() && end == |l.fill| + |l.a|
    ensures Visited(body, l.a, end) == []
  {
    assert end + |l.a| > |body|;
  }

  lemma {:induction false} LossVisits(l: Loss)
    requires l.Valid()
    ensures Visited(l.Body(), l.a, 0) == [|l.fill|]
  {
    var body, n, end := l.Body(), |l.fill|, |l.fill| + |l.a|;
    LossFoundAt(l);
    LossNoneBehind(l, body, end);
    var later := NextVisit(body, l.a, 0, n, end);
  }

  lemma {:induction false} LossCandidates(l: Loss, s: Span)
    requires l.Valid() && Candidate(l.Body(), {l.Long(), l.a}, s)
    ensures s == Span(0, |l.fill| + 1) || s == Span(|l.fill|, |l.fill| + |l.a|)
  {
    var body := l.Body();
    if body[s.start..s.end] == l.Long() {
      LossLongAlone(l, s.start);
    } else {
      LossVisits(l);
    }
  }

  lemma {:induction false} LossLongWins(l: Loss, order: seq<string>)
    requires l.Valid() && IsAliasOrder(order, {l.Long(), l.a})
    ensures Winners(l.Body(), order) == {Span(0, |l.fill| + 1)}
  {
    LossShape(l);
    var body, n := l.Body(), |l.fill|;
    var long, short := Span(0, n + 1), Span(n, n + |l.a|);
    forall s | Candidate(body, {l.Long(), l.a}, s)
      ensures s == long || s == short
    {
      LossCandidates(l, s);
    }
    assert Find(body, l.Long(), 0) == Some(0);
    var later := NextVisit(body, l.Long(), 0, 0, |l.Long()|);
    assert Candidate(body, {l.Long(), l.a}, long);
    RefusedLeavesGap(body, {l.Long(), l.a}, order, long, short);
  }

  /** Whatever its border, an alias that can overlap itself is lost in some body. */
  lemma {:induction false} LossBreaksPromise(l: Loss)
    requires l.Valid()
    ensures !AlwaysTagged(l.a)
  {
    var body, order, p := l.Body(), [l.Long(), l.a], |l.fill| + l.shift;
    LossShape(l);
    assert Keys(order) == {l.Long(), l.a};
    assert IsAliasOrder(order, {l.Long(), l.a});
    LossLongWins(l, order);
    assert !TaggedOrCovered(body, order, Span(p, p + |l.a|));
  }

  /** Longest match holds for an alias, whatever the body and the other aliases, exactly when no proper prefix
      of it is also a suffix. */
  lemma {:induction false} LongestMatchExactly(a: string)
    requires a != ""
    ensures AlwaysTagged(a) <==> Borderless(a)
  {
    if Borderless(a) {
      forall body, keys, order, p: nat | IsAliasOrder(order, keys) && a in keys && At(body, a, p)
        ensures TaggedOrCovered(body, order, Span(p, p + |a|))
      {
        BorderlessOccurrencesTagged(body, keys, order, a, p);
      }
    } else {
      var k :| 0 < k < |a| && a[..k] == a[|a| - k..];
      var c := if a[0] == 'x' then 'y' else 'x';
      LossBreaksPromise(Loss(a, |a| - k, seq(|a| - k + |a| + 1, _ => c)));
    }
  }

  // ----- Which dictionaries make the order of equal-length aliases irrelevant -----

  /** Order-free reference: a candidate counts unless a longer span that counts overlaps it. */
  ghost predicate Canon(body: string, keys: set<string>, s: Span)
    decreases |body| - Len(s)
  {
    && Candidate(body, keys, s)
    && forall t | Candidate(body, keys, t) && Len(t) > Len(s) && Overlap(s, t) :: !Canon(body, keys, t)
  }

  /** Two equal-length candidates fight for a byte that no longer canonical span settles. */
  ghost predicate Contended(body: string, keys: set<string>, s: Span, t: Span) {
    && Candidate(body, keys, s) && Candidate(body, keys, t)
    && s != t && Len(s) == Len(t) && Overlap(s, t)
    && forall u | Canon(body, keys, u) && Len(u) > Len(s) :: !Overlap(u, s) && !Overlap(u, t)
  }

  ghost predicate UncontendedFrom(body: string, keys: set<string>, n: int) {
    forall s, t | Contended(body, keys, s, t) :: Len(s) < n
  }

  ghost predicate Uncontended(body: string, keys: set<string>) {
    forall s, t :: !Contended(body, keys, s, t)
  }

  /** Without contention at this length or above, what wins is the canonical choice, in any order. */
  lemma {:induction false} WinnersAreCanonical(body: string, keys: set<string>, order: seq<string>, s: Span)
    requires IsAliasOrder(order, keys) && UncontendedFrom(body, keys, Len(s))
    ensures s in Winners(body, order) <==> Canon(body, keys, s)
    decreases |body| - Len(s)
  {
    WinnersSound(body, order);
    if Candidate(body, keys, s) {
      forall t | Candidate(body, keys, t) && Len(t) > Len(s)
        ensures t in Winners(body, order) <==> Canon(body, keys, t)
      {
        WinnersAreCanonical(body, keys, order, t);
      }
      if Canon(body, keys, s) && s !in Winners(body, order) {
        CandidateWinsOrIsCovered(body, keys, order, s);
        var t :| t in Winners(body, order) && t != s && Overlap(s, t) && Len(t) >= Len(s);
        assert Candidate(body, keys, t);
        assert Len(t) == Len(s);
        assert !Contended(body, keys, s, t);
        var u :| Canon(body, keys, u) && Len(u) > Len(s) && (Overlap(u, s) || Overlap(u, t));
        assert false;
      }
    }
  }

  lemma {:induction false} LongestExists(keys: set<string>) returns (a: string)
    requires keys != {}
    ensures a in keys && forall b | b in keys :: |b| <= |a|
    decreases keys
  {
    a :| a in keys;
    if keys != {a} {
      var b := LongestExists(keys - {a});
      if |b| > |a| {
        a := b;
      }
    }
  }

  lemma {:induction false} AliasOrderExists(keys: set<string>) returns (order: seq<string>)
    ensures IsAliasOrder(order, keys)
    decreases keys
  {
    order := [];
    if keys != {} {
      var a := LongestExists(keys);
      var rest := AliasOrderExists(keys - {a});
      order := [a] + rest;
      assert forall b :: b in Keys(rest) <==> b in rest;
      assert Keys(order) == keys;
    }
  }

  /** Some order scans `a` before every other alias of its length. */
  lemma {:induction false} OrderFavouring(keys: set<string>, a: string) returns (order: seq<string>, k: nat)
    requires a in keys
    ensures IsAliasOrder(order, keys) && k < |order| && order[k] == a
    ensures forall i | 0 <= i < k :: |order[i]| > |a|
  {
    var longer := set b | b in keys && |b| > |a|;
    var front := AliasOrderExists(longer);
    var back := AliasOrderExists(keys - longer - {a});
    order, k := front + [a] + back, |front|;
    assert forall b :: b in Keys(front) <==> b in front;
    assert forall b :: b in Keys(back) <==> b in back;
    assert forall i | 0 <= i < |front| :: front[i] in longer;
    assert forall i | 0 <= i < |back| :: back[i] in keys - longer - {a};
    assert Keys(order) == keys;
  }

  lemma {:induction false} HighestContention(body: string, keys: set<string>, s: Span, t: Span)
    returns (s': Span, t': Span)
    requires Contended(body, keys, s, t)
    ensures Contended(body, keys, s', t') && UncontendedFrom(body, keys, Len(s') + 1)
    decreases |body| - Len(s)
  {
    if UncontendedFrom(body, keys, Len(s) + 1) {
      s', t' := s, t;
    } else {
      var u, v :| Contended(body, keys, u, v) && Len(u) >= Len(s) + 1;
      s', t' := HighestContention(body, keys, u, v);
    }
  }

  lemma {:induction false} FavouredWins(body: string, keys: set<string>, s: Span, t: Span) returns (order: seq<string>)
    requires Contended(body, keys, s, t) && UncontendedFrom(body, keys, Len(s) + 1)
    ensures IsAliasOrder(order, keys) && s in Winners(body, order) && t !in Winners(body, order)
  {
    var k: nat;
    order, k := OrderFavouring(keys, body[s.start..s.end]);
    var w := Winners(body, order[..k]);
    WinnersSound(body, order[..k]);
    WinnersGrow(body, order, k);
    forall u | u in w
      ensures !Overlap(s, u)
    {
      var j := IndexOf(order[..k], body[u.start..u.end]);
      assert Len(u) > Len(s);
      WinnersAreCanonical(body, keys, order, u);
    }
    LostToEarlier(body, order, k, s);
    WinnersSound(body, order);
  }

  ghost predicate OrderIndependent(body: string, keys: set<string>) {
    forall o, o' | IsAliasOrder(o, keys) && IsAliasOrder(o', keys) :: Winners(body, o) == Winners(body, o')
  }

  /** The output is stable under every hash-map order exactly when no equal-length pair is contended. */
  lemma {:induction false} StableExactlyWhenUncontended(body: string, keys: set<string>)
    ensures OrderIndependent(body, keys) <==> Uncontended(body, keys)
  {
    if Uncontended(body, keys) {
      forall o, o' | IsAliasOrder(o, keys) && IsAliasOrder(o', keys)
        ensures Winners(body, o) == Winners(body, o')
      {
        forall s: Span
          ensures s in Winners(body, o) <==> s in Winners(body, o')
        {
          WinnersAreCanonical(body, keys, o, s);
          WinnersAreCanonical(body, keys, o', s);
        }
      }
    } else {
      var s, t :| Contended(body, keys, s, t);
      s, t := HighestContention(body, keys, s, t);
      var o := FavouredWins(body, keys, s, t);
      assert Contended(body, keys, t, s);
      var o' := FavouredWins(body, keys, t, s);
      assert Winners(body, o) != Winners(body, o');
    }
  }

  /** No two distinct equal-length aliases overlap anywhere in the body. */
  ghost predicate EqualLengthsApart(body: string, keys: set<string>) {
    forall a, b, p: nat, q: nat | a in keys && b in keys && a != b && |a| == |b| && At(body, a, p) && At(body, b, q)
      :: !Overlap(Span(p, p + |a|), Span(q, q + |b|))
  }

  lemma {:induction false} EqualLengthCandidatesApart(body: string, keys: set<string>, s: Span, t: Span)
    requires EqualLengthsApart(body, keys)
    requires Candidate(body, keys, s) && Candidate(body, keys, t) && s != t && Len(s) == Len(t)
    ensures !Overlap(s, t)
  {
    var a, b := body[s.start..s.end], body[t.start..t.end];
    assert s == Span(s.start, s.start + |a|) && t == Span(t.start, t.start + |b|);
    if a == b {
      assert Free(s, {}) && Free(t, {});
      ClaimsApart(body, a, {}, s, t);
    } else {
      assert At(body, a, s.start) && At(body, b, t.start);
    }
  }

  lemma {:induction false} StableWhenEqualLengthsApart(body: string, keys: set<string>)
    requires EqualLengthsApart(body, keys)
    ensures OrderIndependent(body, keys)
  {
    forall s, t
      ensures !Contended(body, keys, s, t)
    {
      if Contended(body, keys, s, t) {
        EqualLengthCandidatesApart(body, keys, s, t);
      }
    }
    StableExactlyWhenUncontended(body, keys);
  }

  // ----- The mention list -----

  /** `hits` lists exactly the spans in `w`, by start, each with its alias's company. */
  ghost predicate Lists(hits: seq<Mention>, dict: map<string, Company>, body: string, w: set<Span>) {
    && (forall h | h in hits :: h.span in w)
    && (forall s | s in w :: exists h :: h in hits && h.span == s)
    && (forall h | h in hits :: Labelled(h, dict, body))
    && StrictlySorted(hits)
  }

  predicate Labelled(h: Mention, dict: map<string, Company>, body: string) {
    && h.span.start < h.span.end <= |body|
    && body[h.span.start..h.span.end] in dict
    && dict[body[h.span.start..h.span.end]] == Company(h.corp, h.ticker)
  }

  ghost predicate StrictlySorted(hits: seq<Mention>) {
    forall i, j | 0 <= i < j < |hits| :: hits[i].span.start < hits[j].span.start
  }

  /** Strictly sorted lists with the same elements agree position by position. */
  lemma {:induction false} AgreeAt(h: seq<Mention>, h': seq<Mention>, k: nat)
    requires StrictlySorted(h) && StrictlySorted(h') && k < |h|
    requires forall x :: x in h <==> x in h'
    requires forall m | 0 <= m < k :: m < |h'| && h[m] == h'[m]
    ensures k < |h'| && h[k] == h'[k]
  {
    assert h[k] in h';
    var i :| 0 <= i < |h'| && h'[i] == h[k];
    assert h'[k] in h;
    var j :| 0 <= j < |h| && h[j] == h'[k];
  }

  lemma {:induction false} SortedUnique(h: seq<Mention>, h': seq<Mention>)
    requires StrictlySorted(h) && StrictlySorted(h')
    requires forall x :: x in h <==> x in h'
    ensures h == h'
  {
    var k := 0;
    while k < |h|
      invariant k <= |h| && k <= |h'| && forall m | 0 <= m < k :: h[m] == h'[m]
    {
      AgreeAt(h, h', k);
      k := k + 1;
    }
    if |h| < |h'| {
      AgreeAt(h', h, |h|);
    }
  }

  /** The spans fix the mention list: distinct starts leave the final sort no choice. */
  lemma {:induction false} ListsUnique(h: seq<Mention>, h': seq<Mention>, dict: map<string, Company>, body: string,
                                       w: set<Span>)
    requires Lists(h, dict, body, w) && Lists(h', dict, body, w)
    ensures h == h'
  {
    forall x
      ensures x in h <==> x in h'
    {
      if x in h {
        var y :| y in h' && y.span == x.span;
        assert Labelled(x, dict, body) && Labelled(y, dict, body);
      }
      if x in h' {
        var y :| y in h && y.span == x.span;
        assert Labelled(x, dict, body) && Labelled(y, dict, body);
      }
    }
    SortedUnique(h, h');
  }

  /** One dictionary and one body without contention give one mention list, whatever order the hash map
      iterates in. */
  lemma {:induction false} MentionsStable(dict: map<string, Company>, body: string, o: seq<string>, o': seq<string>,
                       h: seq<Mention>, h': seq<Mention>)
    requires Uncontended(body, dict.Keys)
    requires IsAliasOrder(o, dict.Keys) && Lists(h, dict, body, Winners(body, o))
    requires IsAliasOrder(o', dict.Keys) && Lists(h', dict, body, Winners(body, o'))
    ensures h == h'
  {
    StableExactlyWhenUncontended(body, dict.Keys);
    ListsUnique(h, h', dict, body, Winners(body, o));
  }

  /** "ab" and "ba" in "aba": the comment's stable output depends on which key comes first. */
  lemma {:induction false} OrderCanMatter()
    ensures !OrderIndependent("aba", {"ab", "ba"})
  {
    var o, o' := ["ab", "ba"], ["ba", "ab"];
    var body := "aba";
    assert body[0..2] == "ab" && body[1..3] == "ba";
    assert Visited(body, "ab", 0)[0] == 0 && Visited(body, "ba", 0)[0] == 1 by {
      assert At(body, "ab", 0) && !At(body, "ba", 0) && At(body, "ba", 1);
    }
    assert Candidate(body, {"ab", "ba"}, Span(0, 2)) && Candidate(body, {"ab", "ba"}, Span(1, 3));
    forall u | Candidate(body, {"ab", "ba"}, u)
      ensures Len(u) == 2
    {
    }
    assert Contended(body, {"ab", "ba"}, Span(0, 2), Span(1, 3));
    StableExactlyWhenUncontended(body, {"ab", "ba"});
  }

  // ----- The tagger object -----

  function Spans(hits: seq<Mention>): set<Span> {
    set h | h in hits :: h.span
  }

  /** The bitmap marks exactly the bytes covered by `taken`. */
  ghost predicate Marks(consumed: seq<bool>, taken: set<Span>) {
    && (forall s | s in taken :: s.start < s.end <= |consumed|)
    && (forall i | 0 <= i < |consumed| :: consumed[i] <==> exists s :: s in taken && s.start <= i < s.end)
  }

  lemma {:induction false} MarksDecideFree(consumed: seq<bool>, taken: set<Span>, s: Span)
    requires Marks(consumed, taken) && s.start < s.end <= |consumed|
    ensures Free(s, taken) <==> forall i | s.start <= i < s.end :: !consumed[i]
  {
    if t :| t in taken && Overlap(s, t) {
      var i := if s.start < t.start then t.start else s.start;
      assert consumed[i];
    }
  }

  /** The next visit moves from what is still to claim to what is taken. Hits this scan added end
      before it, so only earlier aliases can block it. */
  lemma {:induction false} ClaimNext(q: nat, end: nat, later: seq<nat>, n: nat, w: set<Span>, taken: set<Span>)
    requires end == q + n && w <= taken && forall t | t in taken :: t in w || t.end <= q
    ensures Taking(taken, Span(q, end)) + ClaimsAt(later, n, w) == taken + ClaimsAt([q] + later, n, w)
  {
    var s := Span(q, end);
    assert Free(s, taken) <==> Free(s, w);
    forall c: Span
      ensures c in ClaimsAt([q] + later, n, w) <==> (c == s && Free(s, w)) || c in ClaimsAt(later, n, w)
    {
      assert c.start in [q] + later <==> c.start == q || c.start in later;
    }
  }

  function Taking(taken: set<Span>, s: Span): set<Span> {
    if Free(s, taken) then taken + {s} else taken
  }

  ghost predicate Apart(hits: seq<Mention>) {
    forall i, j | 0 <= i < j < |hits| :: !Overlap(hits[i].span, hits[j].span)
  }

  predicate SortedByStart(hits: seq<Mention>) {
    forall i, j | 0 <= i < j < |hits| :: hits[i].span.start <= hits[j].span.start
  }

  lemma {:induction false} MarkMore(before: seq<bool>, after: seq<bool>, taken: set<Span>, s: Span)
    requires Marks(before, taken) && s.start < s.end <= |before| == |after|
    requires forall j | 0 <= j < |after| :: after[j] == (before[j] || s.start <= j < s.end)
    ensures Marks(after, taken + {s})
  {
    forall i | 0 <= i < |after|
      ensures after[i] <==> exists t :: t in taken + {s} && t.start <= i < t.end
    {
      if before[i] {
        var t :| t in taken && t.start <= i < t.end;
        assert t in taken + {s};
      } else if s.start <= i < s.end {
        assert s in taken + {s};
      }
    }
  }

  /** Whether the bytes from `p` to `end` touch anything taken. */
  method AnyMarked(consumed: array<bool>, p: nat, end: nat, ghost taken: set<Span>) returns (overlaps: bool)
    requires Marks(consumed[..], taken) && p < end <= consumed.Length
    ensures overlaps <==> !Free(Span(p, end), taken)
  {
    overlaps := false;
    for i := p to end
      invariant overlaps <==> exists j :: p <= j < i && consumed[j]
    {
      if consumed[i] {
        overlaps := true;
      }
    }
    MarksDecideFree(consumed[..], taken, Span(p, end));
  }

  /** std::fill of the bytes from `p` to `end`. */
  method Mark(consumed: array<bool>, p: nat, end: nat, ghost taken: set<Span>)
    requires Marks(consumed[..], taken) && p < end <= consumed.Length
    modifies consumed
    ensures Marks(consumed[..], taken + {Span(p, end)})
  {
    ghost var before := consumed[..];
    for i := p to end
      invariant forall j | 0 <= j < consumed.Length :: consumed[j] == (before[j] || p <= j < i)
    {
      consumed[i] := true;
    }
    MarkMore(before, consumed[..], taken, Span(p, end));
  }

  class TickerNer {
    var byAlias: map<string, Company>

    constructor ()
      ensures byAlias == map[]
    {
      byAlias := map[];
    }

    method AddCompany(corp: string, ticker: string)
      modifies this
      ensures byAlias == old(byAlias)[corp := Company(corp, ticker)]
    {
      byAlias := byAlias[corp := Company(corp, ticker)];
    }

    /** The new alias takes the corp name of some entry with that ticker; without one, nothing changes. */
    method AddAlias(ticker: string, alias: string)
      modifies this
      ensures (forall k | k in old(byAlias) :: old(byAlias)[k].ticker != ticker) ==> byAlias == old(byAlias)
      ensures (exists k :: k in old(byAlias) && old(byAlias)[k].ticker == ticker) ==>
                exists k :: k in old(byAlias) && old(byAlias)[k].ticker == ticker
                            && byAlias == old(byAlias)[alias := old(byAlias)[k]]
    {
      var rest := byAlias.Keys;
      while rest != {}
        invariant rest <= byAlias.Keys && byAlias == old(byAlias)
        invariant forall k | k in byAlias && k !in rest :: byAlias[k].ticker != ticker
        decreases rest
      {
        var k :| k in rest;
        if byAlias[k].ticker == ticker {
          byAlias := byAlias[alias := Company(byAlias[k].corp, ticker)];
          return;
        }
        rest := rest - {k};
      }
    }

    /** The keys by descending length; equal lengths in whatever order they come. */
    method SortedAliases() returns (aliases: seq<string>)
      ensures IsAliasOrder(aliases, byAlias.Keys)
    {
      var rest := byAlias.Keys;
      aliases := [];
      while rest != {}
        invariant rest <= byAlias.Keys && Keys(aliases) == byAlias.Keys - rest
        invariant forall i, j | 0 <= i < j < |aliases| :: aliases[i] != aliases[j] && |aliases[i]| >= |aliases[j]|
        invariant forall i, b | 0 <= i < |aliases| && b in rest :: |aliases[i]| >= |b|
        decreases rest
      {
        ghost var longest := LongestExists(rest);
        var a :| a in rest && forall b | b in rest :: |b| <= |a|;
        assert forall i | 0 <= i < |aliases| :: aliases[i] in Keys(aliases);
        assert Keys(aliases + [a]) == Keys(aliases) + {a};
        aliases := aliases + [a];
        rest := rest - {a};
      }
    }

    /** One occurrence: hit it and consume its bytes, unless one of them is consumed already. */
    method Visit(a: string, body: string, p: nat, end: nat, consumed: array<bool>, hits: seq<Mention>)
      returns (hits': seq<Mention>)
      requires a != "" && a in byAlias && At(body, a, p) && end == p + |a|
      requires State(body, consumed, hits)
      modifies consumed
      ensures State(body, consumed, hits')
      ensures Spans(hits') == Taking(Spans(hits), Span(p, end))
    {
      hits' := hits;
      var overlaps := AnyMarked(consumed, p, end, Spans(hits));
      if !overlaps {
        Mark(consumed, p, end, Spans(hits));
        var m := Mention(byAlias[a].ticker, byAlias[a].corp, Span(p, end));
        assert forall h | h in hits :: h.span in Spans(hits);
        hits' := hits + [m];
        assert Spans(hits') == Spans(hits) + {m.span};
      }
    }

    /** What every step of a tagging run keeps: the bitmap marks the hits, which are apart and labelled. */
    ghost predicate State(body: string, consumed: array<bool>, hits: seq<Mention>)
      reads this, consumed
    {
      && consumed.Length == |body|
      && Marks(consumed[..], Spans(hits)) && Apart(hits)
      && forall h | h in hits :: Labelled(h, byAlias, body)
    }

    /** One alias: visit each occurrence found, going on from its end. */
    method Scan(body: string, a: string, consumed: array<bool>, hits0: seq<Mention>) returns (hits: seq<Mention>)
      requires a != "" && a in byAlias && State(body, consumed, hits0)
      modifies consumed
      ensures State(body, consumed, hits)
      ensures Spans(hits) == Spans(hits0) + Claims(body, a, Spans(hits0))
    {
      ghost var w := Spans(hits0);
      ghost var visits := Visited(body, a, 0);
      ghost var taken, goal := w, w + ClaimsAt(visits, |a|, w);
      hits := hits0;
      var p := 0;
      var found := Find(body, a, p);
      while found.Some?
        invariant p <= |body| && found == Find(body, a, p) && visits == Visited(body, a, p)
        invariant taken == Spans(hits) && goal == taken + ClaimsAt(visits, |a|, w)
        invariant w <= taken && forall s | s in taken :: s in w || s.end <= p
        invariant State(body, consumed, hits)
        decreases |body| - p
      {
        var q := found.value;
        var end := q + |a|;
        ghost var later := NextVisit(body, a, p, q, end);
        ClaimNext(q, end, later, |a|, w, taken);
        taken, visits := Taking(taken, Span(q, end)), later;
        hits := Visit(a, body, q, end, consumed, hits);
        p := end;
        found := Find(body, a, p);
      }
    }

    /** The mentions of a body: the winners of the alias order the sort happened to leave. */
    method Tag(body: string) returns (hits: seq<Mention>)
      ensures exists order ::
                IsAliasOrder(order, byAlias.Keys) && Lists(hits, byAlias, body, Winners(body, order))
      ensures forall h | h in hits ::
                && h.span.start < h.span.end <= |body| && body[h.span.start..h.span.end] in byAlias
                && h.ticker == byAlias[body[h.span.start..h.span.end]].ticker
                && h.corp == byAlias[body[h.span.start..h.span.end]].corp
    {
      var aliases := SortedAliases();
      hits := [];
      var consumed := new bool[|body|](_ => false);
      for k := 0 to |aliases|
        invariant State(body, consumed, hits) && Spans(hits) == Winners(body, aliases[..k])
      {
        assert aliases[..k + 1][..k] == aliases[..k];
        assert aliases[k] in Keys(aliases);
        if aliases[k] != "" {
          hits := Scan(body, aliases[k], consumed, hits);
        }
      }
      assert aliases[..|aliases|] == aliases;
      var unsorted := hits;
      hits := SortByStart(unsorted);
      SortedHitsList(unsorted, hits, byAlias, body);
    }
  }

  /** std::sort of the hits by start. */
  function SortByStart(hits: seq<Mention>): (r: seq<Mention>)
    ensures forall x :: x in r <==> x in hits
    ensures SortedByStart(r)
  {
    if hits == [] then []
    else
      assert hits == [hits[0]] + hits[1..];
      InsertByStart(hits[0], SortByStart(hits[1..]))
  }

  function InsertByStart(h: Mention, sorted: seq<Mention>): (r: seq<Mention>)
    requires SortedByStart(sorted)
    ensures forall x :: x in r <==> x == h || x in sorted
    ensures SortedByStart(r)
  {
    if sorted == [] || h.span.start <= sorted[0].span.start then [h] + sorted
    else
      assert sorted == [sorted[0]] + sorted[1..];
      var tail := InsertByStart(h, sorted[1..]);
      assert forall i | 0 <= i < |tail| :: tail[i] in tail;
      assert forall x | x in sorted[1..] :: sorted[0].span.start <= x.span.start;
      [sorted[0]] + tail
  }

  /** Insertion keeps distinct starts strictly sorted. */
  lemma {:induction false} InsertStrictly(h: Mention, sorted: seq<Mention>)
    requires StrictlySorted(sorted) && forall x | x in sorted :: x.span.start != h.span.start
    ensures SortedByStart(sorted) && StrictlySorted(InsertByStart(h, sorted))
  {
    if !(sorted == [] || h.span.start <= sorted[0].span.start) {
      InsertStrictly(h, sorted[1..]);
      var tail := InsertByStart(h, sorted[1..]);
      forall i | 0 <= i < |tail|
        ensures sorted[0].span.start < tail[i].span.start
      {
        assert tail[i] in tail;
      }
    }
  }

  lemma {:induction false} SortStrictly(hits: seq<Mention>)
    requires Apart(hits) && forall h | h in hits :: h.span.start < h.span.end
    ensures StrictlySorted(SortByStart(hits))
  {
    if hits != [] {
      SortStrictly(hits[1..]);
      forall x | x in hits[1..]
        ensures x.span.start != hits[0].span.start
      {
        var i :| 0 <= i < |hits| - 1 && hits[i + 1] == x;
        assert !Overlap(hits[0].span, hits[i + 1].span);
      }
      InsertStrictly(hits[0], SortByStart(hits[1..]));
    }
  }

  lemma {:induction false} SortedHitsList(hits: seq<Mention>, sorted: seq<Mention>, dict: map<string, Company>,
                                          body: string)
    requires sorted == SortByStart(hits) && Apart(hits) && forall h | h in hits :: Labelled(h, dict, body)
    ensures Lists(sorted, dict, body, Spans(hits))
  {
    SortStrictly(hits);
    forall s | s in Spans(hits)
      ensures exists h :: h in sorted && h.span == s
    {
      var h :| h in hits && h.span == s;
      assert h in sorted;
    }
  }
}
