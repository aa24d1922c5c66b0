/** The disclosure poller of modules/dart-crawler/src: dart_client.cpp's bounded duplicate filter,
    disclosure_store.cpp's in-memory store, and the callback of main.cpp that joins them. */
module Poller {
  import opened Text

  const MAX_SEEN: nat := 10_000

  datatype Disclosure = Disclosure(rceptNo: string, corpCode: string, corpName: string, stockCode: string,
                                   corpCls: string, reportNm: string, flrNm: string, rceptDt: string, rm: string)

  function Ids(ds: seq<Disclosure>): (ids: seq<string>)
    ensures |ids| == |ds| && forall k | 0 <= k < |ds| :: ids[k] == ds[k].rceptNo
  {
    seq(|ds|, k requires 0 <= k < |ds| => ds[k].rceptNo)
  }

  predicate Distinct(ids: seq<string>) {
    forall i, j | 0 <= i < j < |ids| :: ids[i] != ids[j]
  }

  // ----- What the poller emits -----

  function Admit(emitted: seq<Disclosure>, d: Disclosure): seq<Disclosure> {
    if d.rceptNo in Tail(Ids(emitted), MAX_SEEN) then emitted else emitted + [d]
  }

  /** The callback's arguments: every disclosure polled whose number is not among the last emitted ones. */
  function Emitted(polled: seq<Disclosure>): seq<Disclosure> {
    if polled == [] then [] else Admit(Emitted(polled[..|polled| - 1]), polled[|polled| - 1])
  }

  function AddNew(first: seq<Disclosure>, d: Disclosure): seq<Disclosure> {
    if d.rceptNo in Ids(first) then first else first + [d]
  }

  /** The first disclosure of each number, in order of appearance. */
  function FirstSeen(polled: seq<Disclosure>): seq<Disclosure> {
    if polled == [] then [] else AddNew(FirstSeen(polled[..|polled| - 1]), polled[|polled| - 1])
  }

  /** Numbers within 10,000 places of each other differ. */
  predicate SpacedDistinct(ids: seq<string>) {
    forall i, j | 0 <= i < j < |ids| && j - i <= 10_000 :: ids[i] != ids[j]
  }

  lemma {:induction false} SpacedGrows(ids: seq<string>, id: string)
    requires SpacedDistinct(ids) && id !in Tail(ids, MAX_SEEN)
    ensures SpacedDistinct(ids + [id])
  {
    forall i | 0 <= i < |ids| && |ids| - i <= MAX_SEEN
      ensures ids[i] != id
    {
      var last := Tail(ids, MAX_SEEN);
      assert last[i - (|ids| - |last|)] == ids[i];
    }
  }

  lemma {:induction false} IdsGrow(ds: seq<Disclosure>, d: Disclosure)
    ensures Ids(ds + [d]) == Ids(ds) + [d.rceptNo]
  {
  }

  /** Any 10,001 consecutive emissions have different numbers. */
  lemma {:induction false} EmissionsSpaced(polled: seq<Disclosure>)
    ensures SpacedDistinct(Ids(Emitted(polled)))
  {
    if polled != [] {
      var before, d := polled[..|polled| - 1], polled[|polled| - 1];
      EmissionsSpaced(before);
      if d.rceptNo !in Tail(Ids(Emitted(before)), MAX_SEEN) {
        SpacedGrows(Ids(Emitted(before)), d.rceptNo);
        IdsGrow(Emitted(before), d);
      }
    }
  }

  // ----- The two structures kept in step -----

  /** seen as a set of seen_order, and seen_order as the tail of what was emitted. */
  predicate InStep(seen: set<string>, seenOrder: seq<string>, ids: seq<string>) {
    && seenOrder == Tail(ids, MAX_SEEN)
    && Distinct(seenOrder)
    && seen == (set id | id in seenOrder)
  }

  lemma {:induction false} PushKeepsStep(seen: set<string>, seenOrder: seq<string>, ids: seq<string>, id: string)
    requires InStep(seen, seenOrder, ids) && SpacedDistinct(ids) && id !in seen && |seenOrder| < MAX_SEEN
    ensures InStep(seen + {id}, seenOrder + [id], ids + [id])
  {
  }

  lemma {:induction false} EvictKeepsStep(seen: set<string>, seenOrder: seq<string>, ids: seq<string>, id: string)
    requires InStep(seen, seenOrder, ids) && SpacedDistinct(ids) && id !in seen && |seenOrder| == MAX_SEEN
    ensures InStep(seen + {id} - {seenOrder[0]}, (seenOrder + [id])[1..], ids + [id])
  {
    var pushed := seenOrder + [id];
    assert Distinct(pushed);
    assert pushed == [pushed[0]] + pushed[1..];
    SetOfTail(pushed);
    assert pushed[1..] == (ids + [id])[|ids| + 1 - MAX_SEEN..];
    assert seen + {id} == set x | x in pushed;
  }

  lemma {:induction false} SetOfTail(ids: seq<string>)
    requires ids != [] && Distinct(ids)
    ensures (set x | x in ids[1..]) == (set x | x in ids) - {ids[0]}
  {
    assert ids == [ids[0]] + ids[1..];
    assert forall k | 0 <= k < |ids| - 1 :: ids[1..][k] == ids[k + 1];
  }

  // ----- The store -----

  class InMemoryStore {
    var byId: map<string, Disclosure>
    var order: seq<string>

    ghost predicate Valid()
      reads this
    {
      && Distinct(order)
      && (forall id | id in order :: id in byId)
      && forall id | id in byId :: id in order && byId[id].rceptNo == id
    }

    /** The stored records in the order they came. */
    ghost function Contents(): (ds: seq<Disclosure>)
      requires Valid()
      reads this
      ensures Ids(ds) == order
    {
      seq(|order|, k requires 0 <= k < |order| reads this requires Valid() => byId[order[k]])
    }

    constructor ()
      ensures Valid() && Contents() == []
    {
      byId, order := map[], [];
    }

    method Insert(d: Disclosure) returns (added: bool)
      requires Valid()
      modifies this
      ensures Valid() && added == (d.rceptNo !in Ids(old(Contents())))
      ensures Contents() == if added then old(Contents()) + [d] else old(Contents())
    {
      if d.rceptNo in byId {
        return false;
      }
      byId := byId[d.rceptNo := d];
      order := order + [d.rceptNo];
      return true;
    }

    method Find(rceptNo: string) returns (r: Option<Disclosure>)
      requires Valid()
      ensures r.None? <==> rceptNo !in Ids(Contents())
      ensures r.Some? ==> r.value in Contents() && r.value.rceptNo == rceptNo
    {
      if rceptNo !in byId {
        return None;
      }
      return Some(byId[rceptNo]);
    }

    /** Newest first. */
    method Recent(limit: int) returns (out: seq<Disclosure>)
      requires Valid()
      ensures |out| == if limit <= 0 then 0 else if limit <= |Contents()| then limit else |Contents()|
      ensures forall k | 0 <= k < |out| :: out[k] == Contents()[|Contents()| - 1 - k]
    {
      var most := if limit <= 0 then 0 else limit;
      var count := if |order| <= most then |order| else most;
      out := [];
      var it := |order|;
      while it > 0 && |out| < count
        invariant it == |order| - |out| && |out| <= count
        invariant forall k | 0 <= k < |out| :: out[k] == byId[order[|order| - 1 - k]]
      {
        it := it - 1;
        out := out + [byId[order[it]]];
      }
    }
  }

  // ----- The store behind the filter -----

  /** A number among the last emitted ones has been seen. */
  lemma {:induction false} FirstsCoverPolled(polled: seq<Disclosure>)
    ensures forall d | d in polled :: d.rceptNo in Ids(FirstSeen(polled))
    ensures forall id | id in Ids(Emitted(polled)) :: id in Ids(FirstSeen(polled))
  {
    if polled != [] {
      var before, d := polled[..|polled| - 1], polled[|polled| - 1];
      FirstsCoverPolled(before);
      assert polled == before + [d];
      IdsGrow(FirstSeen(before), d);
      IdsGrow(Emitted(before), d);
    }
  }

  /** What lies among the last was there. */
  lemma {:induction false} TailWithin(ids: seq<string>, n: nat, id: string)
    requires id in Tail(ids, n)
    ensures id in ids
  {
  }

  /** No earlier disclosure carries its number. */
  predicate FirstAt(polled: seq<Disclosure>, d: Disclosure, i: nat) {
    i < |polled| && polled[i] == d && forall j | 0 <= j < i :: polled[j].rceptNo != d.rceptNo
  }

  lemma {:induction false} FirstsGrow(polled: seq<Disclosure>, d: Disclosure)
    ensures forall x, i: nat | FirstAt(polled, x, i) :: FirstAt(polled + [d], x, i)
    ensures d.rceptNo !in Ids(polled) ==> FirstAt(polled + [d], d, |polled|)
  {
    assert forall j | 0 <= j < |polled| :: Ids(polled)[j] == (polled + [d])[j].rceptNo;
  }

  lemma {:induction false} CoveredIds(polled: seq<Disclosure>, id: string)
    requires id in Ids(polled)
    ensures id in Ids(FirstSeen(polled))
  {
    FirstsCoverPolled(polled);
    var k :| 0 <= k < |polled| && Ids(polled)[k] == id;
    assert polled[k] in polled;
  }

  /** Each number once, each with the first disclosure that carried it. */
  lemma {:induction false} FirstSeenIsFirst(polled: seq<Disclosure>)
    ensures Distinct(Ids(FirstSeen(polled)))
    ensures forall d | d in FirstSeen(polled) :: exists i: nat :: FirstAt(polled, d, i)
  {
    if polled != [] {
      var n := |polled| - 1;
      var before, d := polled[..n], polled[n];
      FirstSeenIsFirst(before);
      FirstsGrow(before, d);
      assert polled == before + [d];
      if d.rceptNo !in Ids(FirstSeen(before)) {
        if d.rceptNo in Ids(before) {
          CoveredIds(before, d.rceptNo);
        }
        IdsGrow(FirstSeen(before), d);
        assert FirstAt(polled, d, n);
      }
    }
  }

  /** The store behind the filter sees what it would see without it: a number the filter has forgotten and lets
      through again is stopped there. */
  lemma {:induction false} FilterIsInvisible(polled: seq<Disclosure>)
    ensures FirstSeen(Emitted(polled)) == FirstSeen(polled)
  {
    if polled != [] {
      var before, d := polled[..|polled| - 1], polled[|polled| - 1];
      FilterIsInvisible(before);
      if d.rceptNo in Tail(Ids(Emitted(before)), MAX_SEEN) {
        TailWithin(Ids(Emitted(before)), MAX_SEEN, d.rceptNo);
        FirstsCoverPolled(before);
      } else {
        assert (Emitted(before) + [d])[..|Emitted(before)|] == Emitted(before);
      }
    }
  }

  // ----- When the filter alone would do -----

  lemma {:induction false} AddNewLength(first: seq<Disclosure>, d: Disclosure)
    ensures AddNew(first, d) == first || AddNew(first, d) == first + [d]
  {
  }

  lemma {:induction false} FirstSeenShrinks(ds: seq<Disclosure>)
    ensures |FirstSeen(ds)| <= |ds|
    ensures |FirstSeen(ds)| == |ds| ==> FirstSeen(ds) == ds
  {
    if ds != [] {
      var before, d := ds[..|ds| - 1], ds[|ds| - 1];
      assert ds == before + [d];
      FirstSeenShrinks(before);
      AddNewLength(FirstSeen(before), d);
    }
  }

  /** Polled again only while fewer than 10,000 other numbers have been new since. */
  predicate PolledAgainSoon(polled: seq<Disclosure>, j: nat)
    requires j < |polled|
  {
    var before := Ids(FirstSeen(polled[..j]));
    polled[j].rceptNo in before ==> polled[j].rceptNo in Tail(before, 10_000)
  }

  ghost predicate AlwaysSoon(polled: seq<Disclosure>) {
    forall j | 0 <= j < |polled| :: PolledAgainSoon(polled, j)
  }

  lemma {:induction false} SoonStep(polled: seq<Disclosure>, before: seq<Disclosure>, d: Disclosure)
    requires polled == before + [d]
    ensures AlwaysSoon(polled) <==>
              AlwaysSoon(before)
              && (d.rceptNo in Ids(FirstSeen(before)) ==> d.rceptNo in Tail(Ids(FirstSeen(before)), MAX_SEEN))
  {
    assert polled[..|before|] == before;
    forall j | 0 <= j < |before|
      ensures PolledAgainSoon(before, j) == PolledAgainSoon(polled, j)
    {
      assert before[..j] == polled[..j];
    }
    assert PolledAgainSoon(polled, |before|) <==>
           (d.rceptNo in Ids(FirstSeen(before)) ==> d.rceptNo in Tail(Ids(FirstSeen(before)), MAX_SEEN));
  }

  /** The callback is called just once for each number exactly when no number comes back later than that. */
  lemma {:induction false} FilterSufficesExactly(polled: seq<Disclosure>)
    ensures Emitted(polled) == FirstSeen(polled) <==> AlwaysSoon(polled)
  {
    if polled != [] {
      var before, d := polled[..|polled| - 1], polled[|polled| - 1];
      FilterSufficesExactly(before);
      SoonStep(polled, before, d);
      FilterIsInvisible(before);
      FirstSeenShrinks(Emitted(before));
      FirstsCoverPolled(before);
      OneMorePoll(Emitted(before), FirstSeen(before), d);
    }
  }

  lemma {:induction false} OneMorePoll(emitted: seq<Disclosure>, first: seq<Disclosure>, d: Disclosure)
    requires |first| < |emitted| || first == emitted
    requires forall id | id in Ids(emitted) :: id in Ids(first)
    ensures Admit(emitted, d) == AddNew(first, d) <==>
              emitted == first && (d.rceptNo in Ids(first) ==> d.rceptNo in Tail(Ids(first), MAX_SEEN))
  {
    if d.rceptNo in Tail(Ids(emitted), MAX_SEEN) {
      TailWithin(Ids(emitted), MAX_SEEN, d.rceptNo);
    }
    if d.rceptNo in Tail(Ids(first), MAX_SEEN) {
      TailWithin(Ids(first), MAX_SEEN, d.rceptNo);
    }
    if emitted + [d] == first + [d] {
      assert (emitted + [d])[..|emitted|] == emitted && (first + [d])[..|first|] == first;
    }
  }

  /** 10,001 numbers and then the first of them again: the filter has forgotten it. */
  lemma {:induction false} LateReturnIsEmittedAgain(polled: seq<Disclosure>, again: seq<Disclosure>)
    requires |polled| == 10_001 && Distinct(Ids(polled)) && again == polled + [polled[0]]
    ensures Emitted(again) == again && FirstSeen(again) == polled
  {
    DistinctPassThrough(polled, |polled|);
    assert polled[..|polled|] == polled;
    PolledOne(polled, polled[0]);
    var ids := Ids(polled);
    assert forall i | 0 < i < |ids| :: ids[i] != ids[0];
    assert ids[0] !in Tail(ids, MAX_SEEN);
  }

  lemma {:induction false} NewPassesThrough(before: seq<Disclosure>, d: Disclosure)
    requires Emitted(before) == before == FirstSeen(before) && d.rceptNo !in Ids(before)
    ensures Emitted(before + [d]) == before + [d] == FirstSeen(before + [d])
  {
    PolledOne(before, d);
    if d.rceptNo in Tail(Ids(before), MAX_SEEN) {
      TailWithin(Ids(before), MAX_SEEN, d.rceptNo);
    }
  }

  lemma {:induction false} NotBefore(polled: seq<Disclosure>, n: nat)
    requires n < |polled| && Distinct(Ids(polled))
    ensures polled[n].rceptNo !in Ids(polled[..n])
  {
    assert forall i | 0 <= i < n :: Ids(polled[..n])[i] == Ids(polled)[i];
    assert polled[n].rceptNo == Ids(polled)[n];
  }

  lemma {:induction false} DistinctPassThrough(polled: seq<Disclosure>, n: nat)
    requires n <= |polled| && Distinct(Ids(polled))
    ensures Emitted(polled[..n]) == polled[..n] == FirstSeen(polled[..n])
  {
    if n > 0 {
      var m := n - 1;
      DistinctPassThrough(polled, m);
      NotBefore(polled, m);
      NewPassesThrough(polled[..m], polled[m]);
      assert polled[..n] == polled[..m] + [polled[m]];
    }
  }

  /** Numbers spelled as runs of 1 to n digits. */
  function Numbers(n: nat): (ds: seq<Disclosure>)
    ensures |ds| == n && Distinct(Ids(ds))
  {
    seq(n, i requires 0 <= i < n => Disclosure(seq(i + 1, _ => '1'), "", "", "", "", "", "", "", ""))
  }

  lemma {:induction false} LateReturnExample()
    ensures var polled := Numbers(10_001);
            Emitted(polled + [polled[0]]) != FirstSeen(polled + [polled[0]])
  {
    var polled := Numbers(10_001);
    LateReturnIsEmittedAgain(polled, polled + [polled[0]]);
  }

  // ----- The loop with its callback -----

  /** The filter's state and the store's contents after the polled disclosures. */
  ghost predicate Tracks(seen: set<string>, seenOrder: seq<string>, stored: seq<Disclosure>,
                         polled: seq<Disclosure>) {
    InStep(seen, seenOrder, Ids(Emitted(polled))) && stored == FirstSeen(polled)
  }

  /** The body of the loop for one disclosure, the callback included. */
  method Handle(d: Disclosure, store: InMemoryStore, seen: set<string>, seenOrder: seq<string>,
                ghost polled: seq<Disclosure>)
    returns (seen': set<string>, seenOrder': seq<string>, isNew: bool)
    requires store.Valid() && Tracks(seen, seenOrder, store.Contents(), polled)
    modifies store
    ensures store.Valid() && Tracks(seen', seenOrder', store.Contents(), polled + [d])
    ensures store.Contents() == old(store.Contents()) + if isNew then [d] else []
  {
    seen', seenOrder', isNew := seen, seenOrder, false;
    PolledOne(polled, d);
    if d.rceptNo !in seen {
      IntoStep(seen, seenOrder, Emitted(polled), polled, d);
      seen', seenOrder' := seen + {d.rceptNo}, seenOrder + [d.rceptNo];
      if |seenOrder'| > MAX_SEEN {
        seen', seenOrder' := seen' - {seenOrder'[0]}, seenOrder'[1..];
      }
      isNew := store.Insert(d);
    }
  }

  /** What one pass over a page has kept so far: disclosures handled, and what the store has gained. */
  ghost predicate Gained(polled: seq<Disclosure>, page: seq<Disclosure>, i: nat, done: seq<Disclosure>,
                         before: seq<Disclosure>, stored: seq<Disclosure>, reported: seq<Disclosure>) {
    i <= |page| && done == polled + page[..i] && stored == before + reported
  }

  lemma {:induction false} GainsOne(polled: seq<Disclosure>, page: seq<Disclosure>, i: nat, done: seq<Disclosure>,
                                    before: seq<Disclosure>, stored: seq<Disclosure>, reported: seq<Disclosure>,
                                    more: seq<Disclosure>)
    requires Gained(polled, page, i, done, before, stored, reported) && i < |page|
    ensures Gained(polled, page, i + 1, done + [page[i]], before, stored + more, reported + more)
  {
  }

  lemma {:induction false} GainsAll(polled: seq<Disclosure>, page: seq<Disclosure>, done: seq<Disclosure>,
                                    before: seq<Disclosure>, stored: seq<Disclosure>, reported: seq<Disclosure>)
    ensures Gained(polled, page, 0, polled, before, before, [])
    ensures Gained(polled, page, |page|, done, before, stored, reported) ==>
              done == polled + page && stored == before + reported
  {
    assert page[..|page|] == page;
  }

  /** One poll; `reported` is what the callback announces as new. */
  method PollOnce(page: seq<Disclosure>, store: InMemoryStore, seen: set<string>, seenOrder: seq<string>,
                  ghost polled: seq<Disclosure>)
    returns (seen': set<string>, seenOrder': seq<string>, reported: seq<Disclosure>)
    requires store.Valid() && Tracks(seen, seenOrder, store.Contents(), polled)
    modifies store
    ensures store.Valid() && Tracks(seen', seenOrder', store.Contents(), polled + page)
    ensures store.Contents() == old(store.Contents()) + reported
  {
    seen', seenOrder', reported := seen, seenOrder, [];
    ghost var done, before, stored := polled, store.Contents(), store.Contents();
    GainsAll(polled, page, done, before, stored, reported);
    for i := 0 to |page|
      invariant Gained(polled, page, i, done, before, stored, reported)
      invariant store.Valid() && store.Contents() == stored
      invariant Tracks(seen', seenOrder', stored, done)
    {
      var isNew;
      seen', seenOrder', isNew := Handle(page[i], store, seen', seenOrder', done);
      var more := if isNew then [page[i]] else [];
      GainsOne(polled, page, i, done, before, stored, reported, more);
      done, stored, reported := done + [page[i]], stored + more, reported + more;
    }
    GainsAll(polled, page, done, before, stored, reported);
  }

  /** `pages` is what the polls gave back until the loop was told to stop. */
  method PollLoop(pages: seq<seq<Disclosure>>, store: InMemoryStore)
    returns (seen: set<string>, seenOrder: seq<string>, reported: seq<Disclosure>)
    requires store.Valid() && store.Contents() == []
    modifies store
    ensures InStep(seen, seenOrder, Ids(Emitted(Flat(pages))))
    ensures store.Valid() && store.Contents() == FirstSeen(Flat(pages)) && reported == FirstSeen(Flat(pages))
  {
    seen, seenOrder, reported := {}, [], [];
    for p := 0 to |pages|
      invariant store.Valid() && Tracks(seen, seenOrder, store.Contents(), Flat(pages[..p]))
      invariant store.Contents() == reported
    {
      var more;
      seen, seenOrder, more := PollOnce(pages[p], store, seen, seenOrder, Flat(pages[..p]));
      reported := reported + more;
      assert pages[..p + 1][..p] == pages[..p];
    }
    assert pages[..|pages|] == pages;
  }

  /** One more disclosure polled, seen by the two specifications. */
  lemma {:induction false} PolledOne(polled: seq<Disclosure>, d: Disclosure)
    ensures Emitted(polled + [d]) == Admit(Emitted(polled), d)
    ensures FirstSeen(polled + [d]) == AddNew(FirstSeen(polled), d)
    ensures d.rceptNo in Tail(Ids(Emitted(polled)), MAX_SEEN) ==> FirstSeen(polled + [d]) == FirstSeen(polled)
  {
    assert (polled + [d])[..|polled|] == polled;
    if d.rceptNo in Tail(Ids(Emitted(polled)), MAX_SEEN) {
      TailWithin(Ids(Emitted(polled)), MAX_SEEN, d.rceptNo);
      FirstsCoverPolled(polled);
    }
  }

  lemma {:induction false} IntoStep(seen: set<string>, seenOrder: seq<string>, emitted: seq<Disclosure>,
                                    polled: seq<Disclosure>,
                 d: Disclosure)
    requires emitted == Emitted(polled) && InStep(seen, seenOrder, Ids(emitted)) && d.rceptNo !in seen
    ensures var order := seenOrder + [d.rceptNo];
            if |order| > MAX_SEEN
            then InStep(seen + {d.rceptNo} - {order[0]}, order[1..], Ids(emitted + [d]))
            else InStep(seen + {d.rceptNo}, order, Ids(emitted + [d]))
  {
    EmissionsSpaced(polled);
    IdsGrow(emitted, d);
    if |seenOrder| < MAX_SEEN {
      PushKeepsStep(seen, seenOrder, Ids(emitted), d.rceptNo);
    } else {
      EvictKeepsStep(seen, seenOrder, Ids(emitted), d.rceptNo);
    }
  }
}
