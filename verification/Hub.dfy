/** The SSE fan-out hub of go/lqc-gateway: subscribe.go's locked maps and bounded channels, sse.go's
    handlers, interleaved step by step. */
module Hub {
  import opened Text

  const CAPACITY: nat := 64

  // ----- What the three critical sections do to the maps and one buffer -----

  function Attached<C(==)>(subs: map<string, set<C>>, name: string, c: C): map<string, set<C>> {
    subs[name := (if name in subs then subs[name] else {}) + {c}]
  }

  function Detached<C(==)>(subs: map<string, set<C>>, name: string, c: C): map<string, set<C>> {
    if name !in subs then subs
    else if subs[name] == {c} || subs[name] == {} then subs - {name}
    else subs[name := subs[name] - {c}]
  }

  /** The nonblocking send: appended when there is room, otherwise dropped. */
  function Sent(buf: seq<string>, payload: string): seq<string> {
    if |buf| < CAPACITY then buf + [payload] else buf
  }

  function Subscribers<C(==)>(subs: map<string, set<C>>, name: string): set<C> {
    if name in subs then subs[name] else {}
  }

  /** Detaching what was attached leaves the map as it was, with no empty set behind. */
  lemma {:induction false} DetachUndoesAttach<C>(subs: map<string, set<C>>, name: string, c: C)
    requires c !in Subscribers(subs, name) && (name in subs ==> subs[name] != {})
    ensures Detached(Attached(subs, name, c), name, c) == subs
  {
    var rest := Subscribers(subs, name);
    assert (rest + {c}) - {c} == rest;
    if rest + {c} == {c} {
      assert forall x | x in rest :: x in rest + {c};
    }
  }

  // ----- The hub object, one caller at a time -----

  class Channel {
    var buf: seq<string>
    var closed: bool

    constructor ()
      ensures buf == [] && !closed
    {
      buf, closed := [], false;
    }
  }

  class Fanout {
    var subs: map<string, set<Channel>>

    constructor ()
      ensures subs == map[]
    {
      subs := map[];
    }

    method Attach(name: string) returns (c: Channel)
      modifies this
      ensures fresh(c) && c.buf == [] && !c.closed
      ensures subs == Attached(old(subs), name, c)
    {
      c := new Channel();
      if name !in subs {
        subs := subs[name := {}];
      }
      subs := subs[name := subs[name] + {c}];
    }

    /** Closing a closed channel panics, so the caller must own the one close. */
    method Detach(name: string, c: Channel)
      requires !c.closed
      modifies this, c
      ensures subs == Detached(old(subs), name, c)
      ensures c.closed && c.buf == old(c.buf)
    {
      if name in subs {
        var rest := subs[name] - {c};
        if rest == {} {
          subs := subs - {name};
        } else {
          subs := subs[name := rest];
        }
      }
      c.closed := true;
    }

    /** Offers the payload once to every subscriber of the name, never waiting. */
    method Deliver(name: string, payload: string)
      requires forall c | c in Subscribers(subs, name) :: !c.closed
      modifies Subscribers(subs, name)
      ensures subs == old(subs)
      ensures forall c | c in Subscribers(subs, name) :: c.buf == Sent(old(c.buf), payload) && !c.closed
    {
      var pending := Subscribers(subs, name);
      while pending != {}
        invariant pending <= Subscribers(subs, name) && subs == old(subs)
        invariant forall c | c in Subscribers(subs, name) :: !c.closed
        invariant forall c | c in Subscribers(subs, name) ::
                    c.buf == if c in pending then old(c.buf) else Sent(old(c.buf), payload)
        decreases pending
      {
        var c :| c in pending;
        if |c.buf| < CAPACITY {
          c.buf := c.buf + [payload];
        }
        pending := pending - {c};
      }
    }
  }

  // ----- The interleaved system -----

  /** What happened to one channel, in order. */
  datatype Event = Took(payload: string) | Refused(payload: string) | Got(payload: string)

  /** A channel, its handler, and the record of both: `since` and `left` are how many payloads had been
      published on the name when the handler came and went. */
  datatype Chan = Chan(name: string, buf: seq<string>, closed: bool, reading: bool,
                       log: seq<Event>, since: nat, left: nat)

  /** A deliver() call in progress, holding the read lock. */
  datatype Delivery = Delivery(name: string, payload: string, pending: set<nat>)

  datatype State = State(subs: map<string, set<nat>>, chans: map<nat, Chan>, inflight: Option<Delivery>,
                         published: map<string, seq<string>>, panicked: bool)

  const INITIAL := State(map[], map[], None, map[], false)

  function Published(s: State, name: string): seq<string> {
    if name in s.published then s.published[name] else []
  }

  datatype Action =
    | Attach(c: nat, name: string)
    | Publish(name: string, payload: string)
    | Push(c: nat)
    | EndDeliver
    | Receive(c: nat)
    | Detach(c: nat)

  /** Attach and detach take the write lock, so no delivery is in progress; the one subscriber loop
      starts a delivery only after the last one; receiving takes no lock. */
  predicate Enabled(s: State, a: Action) {
    !s.panicked &&
    match a
    case Attach(c, _) => s.inflight.None? && c !in s.chans
    case Publish(_, _) => s.inflight.None?
    case Push(c) => s.inflight.Some? && c in s.inflight.value.pending && c in s.chans
    case EndDeliver => s.inflight.Some? && s.inflight.value.pending == {}
    case Receive(c) => c in s.chans && s.chans[c].reading && s.chans[c].buf != []
    case Detach(c) => s.inflight.None? && c in s.chans && s.chans[c].reading
  }

  function Next(s: State, a: Action): State
    requires Enabled(s, a)
  {
    match a
    case Attach(c, name) =>
      s.(subs := Attached(s.subs, name, c),
         chans := s.chans[c := Chan(name, [], false, true, [], |Published(s, name)|, 0)])
    case Publish(name, payload) =>
      s.(inflight := Some(Delivery(name, payload, Subscribers(s.subs, name))),
         published := s.published[name := Published(s, name) + [payload]])
    case Push(c) =>
      var d, ch := s.inflight.value, s.chans[c];
      var e := if |ch.buf| < CAPACITY then Took(d.payload) else Refused(d.payload);
      if ch.closed then s.(panicked := true)   // send on closed channel
      else s.(inflight := Some(d.(pending := d.pending - {c})),
              chans := s.chans[c := ch.(buf := Sent(ch.buf, d.payload), log := ch.log + [e])])
    case EndDeliver => s.(inflight := None)
    case Receive(c) =>
      var ch := s.chans[c];
      s.(chans := s.chans[c := ch.(buf := ch.buf[1..], log := ch.log + [Got(ch.buf[0])])])
    case Detach(c) =>
      var ch := s.chans[c];
      if ch.closed then s.(panicked := true)   // close of closed channel
      else s.(subs := Detached(s.subs, ch.name, c),
              chans := s.chans[c := ch.(closed := true, reading := false, left := |Published(s, ch.name)|)])
  }

  // ----- Reading a channel's record -----

  function Accepted(log: seq<Event>): seq<string> {
    if log == [] then []
    else
      var rest, e := Accepted(log[..|log| - 1]), log[|log| - 1];
      if e.Took? then rest + [e.payload] else rest
  }

  function Received(log: seq<Event>): seq<string> {
    if log == [] then []
    else
      var rest, e := Received(log[..|log| - 1]), log[|log| - 1];
      if e.Got? then rest + [e.payload] else rest
  }

  function Offered(log: seq<Event>): seq<string> {
    if log == [] then []
    else
      var rest, e := Offered(log[..|log| - 1]), log[|log| - 1];
      if e.Got? then rest else rest + [e.payload]
  }

  function Drops(log: seq<Event>): nat {
    if log == [] then 0 else Drops(log[..|log| - 1]) + if log[|log| - 1].Refused? then 1 else 0
  }

  lemma {:induction false} LogGrows(log: seq<Event>, e: Event)
    ensures Accepted(log + [e]) == if e.Took? then Accepted(log) + [e.payload] else Accepted(log)
    ensures Received(log + [e]) == if e.Got? then Received(log) + [e.payload] else Received(log)
    ensures Offered(log + [e]) == if e.Got? then Offered(log) else Offered(log) + [e.payload]
    ensures Drops(log + [e]) == Drops(log) + if e.Refused? then 1 else 0
  {
    assert (log + [e])[..|log|] == log;
  }

  /** Whatever was accepted and not yet received, at each moment: a refusal found exactly 64, an
      acceptance fewer. */
  ghost predicate DropsOnlyWhenFull(log: seq<Event>) {
    forall k | 0 <= k < |log| ::
      var queued := |Accepted(log[..k])| - |Received(log[..k])|;
      && (log[k].Refused? ==> queued == 64)
      && (log[k].Took? ==> queued < 64)
  }

  /** `part` is `whole` with some elements left out. */
  predicate Subsequence(part: seq<string>, whole: seq<string>) {
    if part == [] then true
    else if whole == [] then false
    else if part[|part| - 1] == whole[|whole| - 1] && Subsequence(part[..|part| - 1], whole[..|whole| - 1]) then true
    else Subsequence(part, whole[..|whole| - 1])
  }

  lemma {:induction false} SubsequenceTake(part: seq<string>, whole: seq<string>, x: string)
    requires Subsequence(part, whole)
    ensures Subsequence(part + [x], whole + [x])
  {
    assert (part + [x])[..|part|] == part && (whole + [x])[..|whole|] == whole;
  }

  lemma {:induction false} SubsequenceSkip(part: seq<string>, whole: seq<string>, x: string)
    requires Subsequence(part, whole)
    ensures Subsequence(part, whole + [x])
  {
    assert (whole + [x])[..|whole|] == whole;
  }

  /** In order, and nothing lost but the drops. */
  lemma {:induction false} AcceptedFromOffered(log: seq<Event>)
    ensures Subsequence(Accepted(log), Offered(log))
    ensures |Offered(log)| == |Accepted(log)| + Drops(log)
  {
    if log != [] {
      var past, e := log[..|log| - 1], log[|log| - 1];
      AcceptedFromOffered(past);
      if e.Took? {
        SubsequenceTake(Accepted(past), Offered(past), e.payload);
      } else if e.Refused? {
        SubsequenceSkip(Accepted(past), Offered(past), e.payload);
      }
    }
  }

  // ----- The invariant -----

  /** The subscriber sets hold exactly the open channels of running handlers, and none is empty. */
  ghost predicate SubsMatch(s: State) {
    && (forall n | n in s.subs :: s.subs[n] != {})
    && (forall n, c | n in s.subs && c in s.subs[n] :: c in s.chans && s.chans[c].name == n && s.chans[c].reading)
    && (forall c | c in s.chans && s.chans[c].reading :: s.chans[c].name in s.subs && c in s.subs[s.chans[c].name])
    && (forall c | c in s.chans :: s.chans[c].closed <==> !s.chans[c].reading)
  }

  ghost predicate PendingAttached(s: State) {
    s.inflight.Some? ==>
      && s.inflight.value.pending <= Subscribers(s.subs, s.inflight.value.name)
      && Published(s, s.inflight.value.name) != []
      && s.inflight.value.payload == Published(s, s.inflight.value.name)[|Published(s, s.inflight.value.name)| - 1]
  }

  /** How much of the name's publications the channel has been offered so far. */
  function OfferedUpTo(s: State, c: nat): int
    requires c in s.chans
  {
    var ch := s.chans[c];
    if !ch.reading then ch.left
    else if s.inflight.Some? && c in s.inflight.value.pending then |Published(s, ch.name)| - 1
    else |Published(s, ch.name)|
  }

  /** One channel's buffer and record, having been offered `seen`: received ++ buffered is what was
      accepted, and drops came only on a full buffer. */
  ghost predicate RecordOf(buf: seq<string>, log: seq<Event>, seen: seq<string>) {
    && |buf| <= CAPACITY
    && Accepted(log) == Received(log) + buf
    && Offered(log) == seen
    && DropsOnlyWhenFull(log)
  }

  /** A channel has been offered what its name published while the handler was attached. */
  ghost predicate Recorded(s: State, c: nat)
    requires c in s.chans
  {
    var ch, upTo := s.chans[c], OfferedUpTo(s, c);
    && ch.since <= upTo <= |Published(s, ch.name)|
    && RecordOf(ch.buf, ch.log, Published(s, ch.name)[ch.since..upTo])
  }

  ghost predicate Inv(s: State) {
    && !s.panicked && SubsMatch(s) && PendingAttached(s)
    && forall c | c in s.chans :: Recorded(s, c)
  }

  lemma {:induction false} LogStep(log: seq<Event>, e: Event, queued: int)
    requires DropsOnlyWhenFull(log) && queued == |Accepted(log)| - |Received(log)|
    requires (e.Refused? ==> queued == CAPACITY) && (e.Took? ==> queued < CAPACITY)
    ensures DropsOnlyWhenFull(log + [e])
  {
    forall k | 0 <= k < |log| + 1
      ensures (log + [e])[..k] == log[..k]
    {
    }
    assert log[..|log|] == log;
  }

  lemma {:induction false} SubsMatchKept(s: State, a: Action)
    requires Enabled(s, a) && SubsMatch(s)
    ensures SubsMatch(Next(s, a))
  {
  }

  lemma {:induction false} PendingKept(s: State, a: Action)
    requires Enabled(s, a) && SubsMatch(s) && PendingAttached(s)
    ensures !Next(s, a).panicked && PendingAttached(Next(s, a))
  {
  }

  /** A channel whose own entry the action leaves alone. */
  lemma {:induction false} RecordedUntouched(s: State, a: Action, c: nat)
    requires Enabled(s, a) && Inv(s) && c in s.chans && c in Next(s, a).chans && Next(s, a).chans[c] == s.chans[c]
    ensures Recorded(Next(s, a), c)
  {
    var s' := Next(s, a);
    var ch := s.chans[c];
    if a.Publish? && a.name == ch.name {
      var before := Published(s, ch.name);
      assert Published(s', ch.name) == before + [a.payload];
      assert OfferedUpTo(s', c) == OfferedUpTo(s, c);
      assert Published(s', ch.name)[ch.since..OfferedUpTo(s, c)] == before[ch.since..OfferedUpTo(s, c)];
    } else {
      assert Published(s', ch.name) == Published(s, ch.name);
      assert OfferedUpTo(s', c) == OfferedUpTo(s, c);
    }
  }

  lemma {:induction false} RecordAfterSend(buf: seq<string>, log: seq<Event>, seen: seq<string>, payload: string)
    requires RecordOf(buf, log, seen)
    ensures var e := if |buf| < CAPACITY then Took(payload) else Refused(payload);
            RecordOf(Sent(buf, payload), log + [e], seen + [payload])
  {
    var e := if |buf| < CAPACITY then Took(payload) else Refused(payload);
    LogGrows(log, e);
    LogStep(log, e, |buf|);
  }

  lemma {:induction false} RecordAfterReceive(buf: seq<string>, log: seq<Event>, seen: seq<string>)
    requires RecordOf(buf, log, seen) && buf != []
    ensures RecordOf(buf[1..], log + [Got(buf[0])], seen)
  {
    LogGrows(log, Got(buf[0]));
    LogStep(log, Got(buf[0]), |buf|);
    assert Received(log) + buf == Received(log) + [buf[0]] + buf[1..];
  }

  lemma {:induction false} SliceOneMore(all: seq<string>, from: nat, before: nat, after: nat, x: string)
    requires from <= before && after == before + 1 == |all| && all[before] == x
    ensures all[from..before] + [x] == all[from..after]
  {
  }

  lemma {:induction false} RecordedPush(s: State, c: nat)
    requires Enabled(s, Push(c)) && PendingAttached(s) && Recorded(s, c)
    requires s.chans[c].reading && !s.chans[c].closed && s.chans[c].name == s.inflight.value.name
    ensures Recorded(Next(s, Push(c)), c)
  {
    var s', ch, payload := Next(s, Push(c)), s.chans[c], s.inflight.value.payload;
    var all, before, after := Published(s, ch.name), OfferedUpTo(s, c), OfferedUpTo(s', c);
    RecordAfterSend(ch.buf, ch.log, all[ch.since..before], payload);
    SliceOneMore(all, ch.since, before, after, payload);
  }

  lemma {:induction false} RecordedReceive(s: State, c: nat)
    requires Enabled(s, Receive(c)) && Recorded(s, c)
    ensures Recorded(Next(s, Receive(c)), c)
  {
    var ch, seen := s.chans[c], Published(s, s.chans[c].name)[s.chans[c].since..OfferedUpTo(s, c)];
    RecordAfterReceive(ch.buf, ch.log, seen);
    assert OfferedUpTo(Next(s, Receive(c)), c) == OfferedUpTo(s, c);
  }

  lemma {:induction false} RecordedTouched(s: State, a: Action, c: nat)
    requires Enabled(s, a) && Inv(s) && c in Next(s, a).chans
    requires c !in s.chans || Next(s, a).chans[c] != s.chans[c]
    ensures Recorded(Next(s, a), c)
  {
    match a
    case Attach(_, _) =>
    case Push(_) =>
      assert c in Subscribers(s.subs, s.inflight.value.name);
      RecordedPush(s, c);
    case Receive(_) => RecordedReceive(s, c);
    case Detach(_) =>
    case _ =>
  }

  lemma {:induction false} RecordedKept(s: State, a: Action, c: nat)
    requires Enabled(s, a) && Inv(s) && c in Next(s, a).chans
    ensures Recorded(Next(s, a), c)
  {
    if c in s.chans && Next(s, a).chans[c] == s.chans[c] {
      RecordedUntouched(s, a, c);
    } else {
      RecordedTouched(s, a, c);
    }
  }

  /** Every action of every participant keeps the invariant. */
  lemma {:induction false} InvKept(s: State, a: Action)
    requires Enabled(s, a) && Inv(s)
    ensures Inv(Next(s, a))
  {
    SubsMatchKept(s, a);
    PendingKept(s, a);
    forall c | c in Next(s, a).chans
      ensures Recorded(Next(s, a), c)
    {
      RecordedKept(s, a, c);
    }
  }

  // ----- All runs -----

  /** The state after the actions, from an empty hub; None when one of them was not enabled. */
  function Run(actions: seq<Action>): Option<State> {
    if actions == [] then Some(INITIAL)
    else
      var before, a := Run(actions[..|actions| - 1]), actions[|actions| - 1];
      if before.Some? && Enabled(before.value, a) then Some(Next(before.value, a)) else None
  }

  lemma {:induction false} RunOneMore(actions: seq<Action>, a: Action)
    requires Run(actions).Some? && Enabled(Run(actions).value, a)
    ensures Run(actions + [a]) == Some(Next(Run(actions).value, a))
  {
    assert (actions + [a])[..|actions|] == actions;
  }

  lemma {:induction false} RunsKeepInv(actions: seq<Action>)
    requires Run(actions).Some?
    ensures Inv(Run(actions).value)
  {
    if actions != [] {
      var past := actions[..|actions| - 1];
      RunsKeepInv(past);
      InvKept(Run(past).value, actions[|actions| - 1]);
    }
  }

  /** In every interleaving: no send or close hits a closed channel, no subscriber set is empty, and each
      handler's received plus buffered payloads are an in-order selection of what its name published
      while it was attached, short exactly by the drops, each drop on a full buffer. */
  lemma {:induction false} HubSafe(actions: seq<Action>)
    requires Run(actions).Some?
    ensures var s := Run(actions).value;
            && !s.panicked
            && (forall n | n in s.subs :: s.subs[n] != {})
            && (forall n, c | n in s.subs && c in s.subs[n] :: c in s.chans && !s.chans[c].closed)
            && forall c | c in s.chans :: ChannelFaithful(s, c)
  {
    RunsKeepInv(actions);
    var s := Run(actions).value;
    forall c | c in s.chans
      ensures ChannelFaithful(s, c)
    {
      assert Recorded(s, c);
      AcceptedFromOffered(s.chans[c].log);
    }
  }

  ghost predicate ChannelFaithful(s: State, c: nat)
    requires c in s.chans
  {
    var ch, upTo := s.chans[c], OfferedUpTo(s, c);
    && |ch.buf| <= 64 && DropsOnlyWhenFull(ch.log)
    && ch.since <= upTo <= |Published(s, ch.name)|
    && var published := Published(s, ch.name)[ch.since..upTo];
       && Subsequence(Received(ch.log) + ch.buf, published)
       && |published| == |Received(ch.log)| + |ch.buf| + Drops(ch.log)
  }

  /** In every reachable state a reading handler with something in its buffer can receive, whatever delivery is
      under way. */
  lemma {:induction false} ReceiverNeverWaits(actions: seq<Action>, c: nat)
    requires Run(actions).Some? && c in Run(actions).value.chans
    requires Run(actions).value.chans[c].reading && Run(actions).value.chans[c].buf != []
    ensures Enabled(Run(actions).value, Receive(c))
  {
    RunsKeepInv(actions);
  }

  /** A delivery under way can take its channels in any order; without one, anybody can attach, publish and
      detach. */
  lemma {:induction false} NobodyIsLockedOut(actions: seq<Action>, s: State, c: nat, name: string, payload: string)
    requires Run(actions) == Some(s)
    ensures s.inflight.Some? && c in s.inflight.value.pending ==> Enabled(s, Push(c))
    ensures s.inflight.Some? && s.inflight.value.pending == {} ==> Enabled(s, EndDeliver)
    ensures s.inflight.None? ==> Enabled(s, Publish(name, payload))
    ensures s.inflight.None? && c !in s.chans ==> Enabled(s, Attach(c, name))
    ensures s.inflight.None? && c in s.chans && s.chans[c].reading ==> Enabled(s, Detach(c))
  {
    RunsKeepInv(actions);
    if s.inflight.Some? && c in s.inflight.value.pending {
      assert c in Subscribers(s.subs, s.inflight.value.name);
    }
  }

  lemma {:induction false} PushOne(actions: seq<Action>, pending: set<nat>, c: nat) returns (next: seq<Action>)
    requires Run(actions).Some? && Run(actions).value.inflight.Some?
    requires pending == Run(actions).value.inflight.value.pending && c in pending
    ensures next == actions + [Push(c)] && Run(next).Some? && Run(next).value.inflight.Some?
    ensures Run(next).value.inflight.value.pending == pending - {c}
  {
    RunsKeepInv(actions);
    var s := Run(actions).value;
    assert c in Subscribers(s.subs, s.inflight.value.name);
    next := actions + [Push(c)];
    RunOneMore(actions, Push(c));
    InvKept(s, Push(c));
  }

  lemma {:induction false} FinishDelivery(actions: seq<Action>) returns (end: seq<Action>)
    requires Run(actions).Some? && Run(actions).value.inflight.Some?
    requires Run(actions).value.inflight.value.pending == {}
    ensures end == actions + [EndDeliver] && Run(end).Some? && Run(end).value.inflight.None?
  {
    RunsKeepInv(actions);
    end := actions + [EndDeliver];
    RunOneMore(actions, EndDeliver);
  }

  lemma {:induction false} FewerPending(pending: set<nat>, c: nat)
    requires c in pending
    ensures |pending| == |pending - {c}| + 1
  {
    assert pending == (pending - {c}) + {c};
  }

  lemma {:induction false} PushInFront(actions: seq<Action>, c: nat, rest: seq<Action>)
    requires forall a | a in rest :: a.Push? || a.EndDeliver?
    ensures (actions + [Push(c)]) + rest == actions + ([Push(c)] + rest)
    ensures forall a | a in [Push(c)] + rest :: a.Push? || a.EndDeliver?
  {
  }

  /** A slow consumer never holds up a delivery: the deliverer's own steps alone, one for each pending
      channel and one to finish, complete it. */
  lemma {:induction false} DeliveryNeverWaits(actions: seq<Action>, pending: set<nat>)
    returns (more: seq<Action>, end: seq<Action>)
    requires Run(actions).Some? && Run(actions).value.inflight.Some?
    requires pending == Run(actions).value.inflight.value.pending
    ensures end == actions + more && Run(end).Some? && Run(end).value.inflight.None?
    ensures |more| == |pending| + 1 && forall a | a in more :: a.Push? || a.EndDeliver?
    decreases pending
  {
    if pending == {} {
      more := [EndDeliver];
      end := FinishDelivery(actions);
    } else {
      var c :| c in pending;
      var next := PushOne(actions, pending, c);
      var rest;
      rest, end := DeliveryNeverWaits(next, pending - {c});
      more := [Push(c)] + rest;
      FewerPending(pending, c);
      PushInFront(actions, c, rest);
    }
  }
}
