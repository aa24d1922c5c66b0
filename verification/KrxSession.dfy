/** The exchange session clock of modules/stock-feed/src/krx_session.cpp. An instant is a count of
    nanoseconds since the start of 1970 in UTC. */
module KrxSession {

  const NS_PER_SEC: nat := 1_000_000_000
  const NS_PER_MS: nat := 1_000_000
  const SECS_PER_DAY: nat := 86400

  datatype State = Closed | PreOpen | Regular | Closing | AfterHours

  /** Day count since 1970, weekday from Sunday = 0, hour, minute and second in Korea. */
  datatype KstClock = KstClock(day: nat, wday: nat, h: nat, m: nat, s: nat)

  function KstSeconds(t: nat): nat {
    t / NS_PER_SEC + 9 * 3600
  }

  /** to_time_t drops the fraction of a second; the first day of 1970 was a Thursday. */
  function ToKst(t: nat): KstClock {
    var secs := KstSeconds(t);
    var day, sod := secs / SECS_PER_DAY, secs % SECS_PER_DAY;
    KstClock(day, (day + 4) % 7, sod / 3600, sod % 3600 / 60, sod % 60)
  }

  function MinutesOfDay(k: KstClock): nat {
    k.h * 60 + k.m
  }

  predicate IsMarketDay(t: nat) {
    var k := ToKst(t);
    k.wday != 0 && k.wday != 6
  }

  function StateAt(t: nat): State {
    var m := MinutesOfDay(ToKst(t));
    if !IsMarketDay(t) then Closed
    else if m >= 8 * 60 + 30 && m < 9 * 60 then PreOpen
    else if m >= 9 * 60 && m < 15 * 60 + 20 then Regular
    else if m >= 15 * 60 + 20 && m < 15 * 60 + 30 then Closing
    else if m >= 15 * 60 + 40 && m < 18 * 60 then AfterHours
    else Closed
  }

  const BOUNDARIES: seq<nat> := [8 * 60 + 30, 9 * 60, 15 * 60 + 20, 15 * 60 + 30, 15 * 60 + 40, 18 * 60]

  /** The search of the table: first boundary from index `i` on that is later than `now`. */
  function FirstAfter(now: nat, i: nat): (b: nat)
    requires i <= |BOUNDARIES|
    decreases |BOUNDARIES| - i
  {
    if i == |BOUNDARIES| then 24 * 60 + (8 * 60 + 30)
    else if BOUNDARIES[i] > now then BOUNDARIES[i]
    else FirstAfter(now, i + 1)
  }

  /** In milliseconds. */
  function TimeUntilNext(t: nat): int {
    var k := ToKst(t);
    var now := MinutesOfDay(k);
    (60 * (FirstAfter(now, 0) - now) - k.s) * 1000
  }

  /** Where sleeping that long from `t` ends. */
  function Hop(t: nat): int {
    t + TimeUntilNext(t) * NS_PER_MS
  }

  // ----- The clock in whole seconds -----

  predicate MarketDay(day: nat) {
    var wday := (day + 4) % 7;
    wday != 0 && wday != 6
  }

  /** How many boundaries the second of the day has reached. */
  function Slot(sod: nat): (k: nat)
    ensures k <= 6
  {
    if sod < 30600 then 0
    else if sod < 32400 then 1
    else if sod < 55200 then 2
    else if sod < 55800 then 3
    else if sod < 56400 then 4
    else if sod < 64800 then 5
    else 6
  }

  function StateIn(market: bool, slot: nat): State {
    if !market then Closed
    else if slot == 1 then PreOpen
    else if slot == 2 then Regular
    else if slot == 3 then Closing
    else if slot == 5 then AfterHours
    else Closed
  }

  /** Start of a slot in seconds of the day; slot 7 is the first of the next day. */
  function Opens(slot: nat): nat
    requires 1 <= slot <= 7
  {
    [30600, 32400, 55200, 55800, 56400, 64800, SECS_PER_DAY + 30600][slot - 1]
  }

  function Day(t: nat): nat {
    KstSeconds(t) / SECS_PER_DAY
  }

  function Sod(t: nat): nat {
    KstSeconds(t) % SECS_PER_DAY
  }

  lemma {:induction false} MinuteOfSod(sod: nat, h: nat, m: nat, s: nat)
    requires h == sod / 3600 && m == sod % 3600 / 60 && s == sod % 60
    ensures 60 * (h * 60 + m) + s == sod && s < 60
  {
    var q := sod % 3600 % 60;
    assert sod == 60 * (60 * h + m) + q;
    LastSixty(sod, 60 * h + m, q);
  }

  lemma {:induction false} LastSixty(sod: nat, k: nat, q: nat)
    requires sod == 60 * k + q && q < 60
    ensures sod % 60 == q
  {
  }

  lemma {:induction false} ClockInSlots(t: nat)
    ensures 60 * MinutesOfDay(ToKst(t)) + ToKst(t).s == Sod(t) && ToKst(t).s < 60
    ensures IsMarketDay(t) == MarketDay(Day(t))
    ensures StateAt(t) == StateIn(MarketDay(Day(t)), Slot(Sod(t)))
  {
    var k := ToKst(t);
    MinuteOfSod(Sod(t), k.h, k.m, k.s);
  }

  /** The trading hours in seconds since 1970: Monday to Friday in Korea, nine hours ahead of UTC, from 08:30 to
      15:30 and from 15:40 to 18:00. */
  predicate InHours(t: nat) {
    var secs := t / 1_000_000_000 + 32400;
    var wday, sod := (secs / 86400 + 4) % 7, secs % 86400;
    1 <= wday <= 5 && (30600 <= sod < 55800 || 56400 <= sod < 64800)
  }

  /** The market is open in some way exactly in these hours. */
  lemma {:induction false} OpenExactlyInHours(t: nat)
    ensures StateAt(t) != Closed <==> InHours(t)
  {
    ClockInSlots(t);
  }

  lemma {:induction false} BoundaryAfter(now: nat, s: nat, sod: nat)
    requires 60 * now + s == sod && s < 60
    ensures 60 * FirstAfter(now, 0) == Opens(Slot(sod) + 1)
  {
    assert FirstAfter(now, 6) == 24 * 60 + (8 * 60 + 30);
    assert FirstAfter(now, 5) == if 18 * 60 > now then 18 * 60 else FirstAfter(now, 6);
    assert FirstAfter(now, 4) == if 15 * 60 + 40 > now then 15 * 60 + 40 else FirstAfter(now, 5);
    assert FirstAfter(now, 3) == if 15 * 60 + 30 > now then 15 * 60 + 30 else FirstAfter(now, 4);
    assert FirstAfter(now, 2) == if 15 * 60 + 20 > now then 15 * 60 + 20 else FirstAfter(now, 3);
    assert FirstAfter(now, 1) == if 9 * 60 > now then 9 * 60 else FirstAfter(now, 2);
  }

  /** The sleep ends a whole number of seconds later, when the next slot opens. */
  lemma {:induction false} HopInSeconds(t: nat)
    ensures TimeUntilNext(t) == (Opens(Slot(Sod(t)) + 1) - Sod(t)) * 1000
    ensures t < Hop(t) && KstSeconds(Hop(t)) == KstSeconds(t) - Sod(t) + Opens(Slot(Sod(t)) + 1)
    ensures Hop(t) % NS_PER_SEC == t % NS_PER_SEC
  {
    ClockInSlots(t);
    BoundaryAfter(MinutesOfDay(ToKst(t)), ToKst(t).s, Sod(t));
    SecondsLater(t, Opens(Slot(Sod(t)) + 1) - Sod(t), Hop(t));
  }

  lemma {:induction false} SecondsLater(t: nat, secs: nat, later: nat)
    requires later == t + secs * 1000 * NS_PER_MS
    ensures later / NS_PER_SEC == t / NS_PER_SEC + secs && later % NS_PER_SEC == t % NS_PER_SEC
  {
    assert later == t + secs * NS_PER_SEC;
  }

  /** At least a second, at most the night from 18:00 to 08:30. */
  lemma {:induction false} SleepBounds(t: nat)
    ensures 1000 <= TimeUntilNext(t) <= (14 * 60 + 30) * 60 * 1000
  {
    HopInSeconds(t);
  }

  /** Day and slot where the sleep ends. */
  lemma {:induction false} HopLands(t: nat)
    ensures Hop(t) >= 0
    ensures Slot(Sod(t)) < 6 ==> Day(Hop(t)) == Day(t) && Slot(Sod(Hop(t))) == Slot(Sod(t)) + 1
    ensures Slot(Sod(t)) == 6 ==> Day(Hop(t)) == Day(t) + 1 && Slot(Sod(Hop(t))) == 1
  {
    HopInSeconds(t);
    var sod, to := Sod(t), Opens(Slot(Sod(t)) + 1);
    SameDayOrNext(KstSeconds(t), Day(t), sod, to, KstSeconds(Hop(t)));
  }

  lemma {:induction false} SameDayOrNext(secs: nat, day: nat, sod: nat, to: nat, later: nat)
    requires secs == day * SECS_PER_DAY + sod && sod < SECS_PER_DAY && later == secs - sod + to
    ensures to < SECS_PER_DAY ==> later / SECS_PER_DAY == day && later % SECS_PER_DAY == to
    ensures SECS_PER_DAY <= to < 2 * SECS_PER_DAY ==>
              later / SECS_PER_DAY == day + 1 && later % SECS_PER_DAY == to - SECS_PER_DAY
  {
  }

  /** Every boundary of a market day changes the state, and none of another day does. */
  lemma {:induction false} ChangesExactlyOnMarketDays(t: nat)
    ensures Hop(t) >= 0
    ensures StateAt(Hop(t)) != StateAt(t) <==> IsMarketDay(Hop(t))
  {
    HopLands(t);
    ClockInSlots(t);
    ClockInSlots(Hop(t));
  }

  /** Before the second in which the sleep ends nothing changes. */
  lemma {:induction false} ConstantBefore(t: nat, x: nat)
    requires t <= x && KstSeconds(x) < KstSeconds(t) - Sod(t) + Opens(Slot(Sod(t)) + 1)
    ensures StateAt(x) == StateAt(t)
  {
    ClockInSlots(t);
    ClockInSlots(x);
    WithinSlot(KstSeconds(t), Day(t), Sod(t), KstSeconds(x), Day(x), Sod(x));
  }

  lemma {:induction false} WithinSlot(a: nat, day: nat, sod: nat, b: nat, day': nat, sod': nat)
    requires a == day * SECS_PER_DAY + sod && sod < SECS_PER_DAY
    requires b == day' * SECS_PER_DAY + sod' && sod' < SECS_PER_DAY
    requires a <= b < a - sod + Opens(Slot(sod) + 1)
    ensures (day' == day && Slot(sod') == Slot(sod)) || (day' == day + 1 && Slot(sod) == 6 && Slot(sod') == 0)
  {
  }

  lemma {:induction false} SecondsOrdered(x: nat, y: nat)
    requires x <= y
    ensures KstSeconds(x) <= KstSeconds(y)
  {
  }

  /** Boundaries from here to the first one on a market day, that one included. */
  function ToChange(day: nat, slot: nat): nat
    requires slot <= 6
  {
    var wday := (day + 4) % 7;
    if wday == 6 then 13 - slot
    else if wday == 0 then 7 - slot
    else if wday == 5 && slot == 6 then 13
    else 1
  }

  lemma {:induction false} HopApproaches(t: nat)
    ensures Hop(t) >= 0
    ensures ToChange(Day(t), Slot(Sod(t))) == 1 <==> IsMarketDay(Hop(t))
    ensures !IsMarketDay(Hop(t)) ==>
              ToChange(Day(Hop(t)), Slot(Sod(Hop(t)))) == ToChange(Day(t), Slot(Sod(t))) - 1
  {
    HopLands(t);
    ClockInSlots(Hop(t));
    NextWeekday(Day(t));
  }

  lemma {:induction false} NextWeekday(day: nat)
    ensures (day + 1 + 4) % 7 == if (day + 4) % 7 == 6 then 0 else (day + 4) % 7 + 1
  {
  }

  /** Said of the clock before the sleep: the next boundary belongs to a market day. */
  predicate BoundaryTrades(t: nat) {
    var k := ToKst(t);
    var m := MinutesOfDay(k);
    if k.wday == 0 then m >= 18 * 60 else if k.wday == 5 then m < 18 * 60 else k.wday != 6
  }

  lemma {:induction false} BoundaryTradesExactly(t: nat)
    ensures Hop(t) >= 0
    ensures BoundaryTrades(t) <==> IsMarketDay(Hop(t))
  {
    HopApproaches(t);
    ClockInSlots(t);
  }

  /** Whether sleeping from `t` to `u` keeps within one state up to the end. */
  ghost predicate ConstantUntil(t: nat, u: nat) {
    forall x | t <= x < u :: StateAt(x) == StateAt(t)
  }

  /** The returned delay drops the second's fraction already gone, so the sleep runs past a change by just that
      fraction: it does not oversleep exactly when there is none or there is no change. */
  lemma {:induction false} NeverOversleepsExactly(t: nat)
    ensures Hop(t) >= 0
    ensures ConstantUntil(t, Hop(t)) <==> t % NS_PER_SEC == 0 || !BoundaryTrades(t)
  {
    HopInSeconds(t);
    BoundaryTradesExactly(t);
    ChangesExactlyOnMarketDays(t);
    var u, frac := Hop(t), t % NS_PER_SEC;
    LastSecond(t, u, frac);
    if frac == 0 || !IsMarketDay(u) {
      forall x | t <= x < u
        ensures StateAt(x) == StateAt(t)
      {
        SecondsOrdered(x, u);
        if KstSeconds(x) < KstSeconds(u) {
          ConstantBefore(t, x);
        } else {
          SameSecond(x, u);
        }
      }
    } else {
      var x := u - frac;
      SameSecond(x, u);
      assert t <= x < u && StateAt(x) != StateAt(t);
    }
  }

  lemma {:induction false} SameSecond(x: nat, y: nat)
    requires KstSeconds(x) == KstSeconds(y)
    ensures StateAt(x) == StateAt(y)
  {
  }

  /** The second of `u` begins `frac` before it. */
  lemma {:induction false} LastSecond(t: nat, u: nat, frac: nat)
    requires t < u && KstSeconds(t) < KstSeconds(u) && frac == t % NS_PER_SEC == u % NS_PER_SEC
    ensures t <= u - frac && KstSeconds(u - frac) == KstSeconds(u)
    ensures frac == 0 ==> forall x: nat | x < u :: KstSeconds(x) < KstSeconds(u)
  {
  }

  /** The delay is the one to the next change of state, as promised to schedulers. */
  ghost predicate IsNextChange(t: nat, u: nat) {
    ConstantUntil(t, u) && StateAt(u) != StateAt(t)
  }

  lemma {:induction false} NextChangeExactly(t: nat)
    ensures Hop(t) >= 0
    ensures IsNextChange(t, Hop(t)) <==> t % NS_PER_SEC == 0 && BoundaryTrades(t)
  {
    NeverOversleepsExactly(t);
    ChangesExactlyOnMarketDays(t);
    BoundaryTradesExactly(t);
  }

  /** Monday 1970-01-05, 08:29:59.5 in Korea: the delay is a whole second and the market opens half a second
      before it is over. */
  lemma {:induction false} OversleepsHalfASecond(t: nat)
    requires t == 343_799 * NS_PER_SEC + 500 * NS_PER_MS
    ensures TimeUntilNext(t) == 1000
    ensures StateAt(t) == Closed && StateAt(t + 500 * NS_PER_MS) == PreOpen
  {
    assert KstSeconds(t) == 4 * SECS_PER_DAY + 30599 && KstSeconds(t + 500 * NS_PER_MS) == 4 * SECS_PER_DAY + 30600;
    ClockInSlots(t);
    ClockInSlots(t + 500 * NS_PER_MS);
    HopInSeconds(t);
  }

  /** Saturday 1970-01-10, 08:00 in Korea: the delay ends at 08:30 with the market as closed as before. */
  lemma {:induction false} WeekendBoundaryIsNoChange(t: nat)
    requires t == (9 * SECS_PER_DAY - 3600) * NS_PER_SEC
    ensures TimeUntilNext(t) == 30 * 60 * 1000
    ensures Hop(t) >= 0 && StateAt(t) == Closed == StateAt(Hop(t))
  {
    assert KstSeconds(t) == 9 * SECS_PER_DAY + 28800;
    ClockInSlots(t);
    HopInSeconds(t);
    ChangesExactlyOnMarketDays(t);
    BoundaryTradesExactly(t);
  }

  // ----- Sleeping again and again -----

  function Hops(t: nat, n: nat): nat
    decreases n
  {
    if n == 0 then t
    else
      HopLands(t);
      Hops(Hop(t), n - 1)
  }

  /** Sleeping repeatedly comes to a change after at most 13 sleeps, at a number of them known beforehand, and
      passes none on the way but for the fraction of a second it started with. */
  lemma {:induction false} ReachesChange(t: nat, n: nat)
    requires n == ToChange(Day(t), Slot(Sod(t)))
    ensures 1 <= n <= 13 && StateAt(Hops(t, n)) != StateAt(t)
    ensures t % NS_PER_SEC == Hops(t, n) % NS_PER_SEC
    ensures forall m | 0 <= m < n :: StateAt(Hops(t, m)) == StateAt(t)
    ensures forall x: nat | t <= x && KstSeconds(x) < KstSeconds(Hops(t, n)) :: StateAt(x) == StateAt(t)
    decreases n
  {
    HopLands(t);
    HopApproaches(t);
    HopInSeconds(t);
    ChangesExactlyOnMarketDays(t);
    var u := Hop(t);
    if n > 1 {
      ReachesChange(u, n - 1);
      assert Hops(t, n) == Hops(u, n - 1);
      forall m | 0 <= m < n
        ensures StateAt(Hops(t, m)) == StateAt(t)
      {
        if m > 0 {
          assert Hops(t, m) == Hops(u, m - 1);
        }
      }
    } else {
      assert Hops(t, 1) == Hops(u, 0) == u;
    }
    forall x: nat | t <= x && KstSeconds(x) < KstSeconds(Hops(t, n))
      ensures StateAt(x) == StateAt(t)
    {
      if KstSeconds(x) < KstSeconds(u) {
        ConstantBefore(t, x);
      } else if x < u {
        SecondsOrdered(x, u);
        SameSecond(x, u);
      }
    }
  }
}
