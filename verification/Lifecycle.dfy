/** The start/stop protocol shared by three clients, modules/market-feed/src/binance_client.cpp,
    modules/stock-feed/src/kis_client.cpp and modules/data-warehouse/src/redis_subscriber.cpp: one controlling
    thread, a worker thread, an atomic flag and a thread handle, interleaved step by step; and the session
    supervisor of modules/stock-feed/src/main.cpp on top. */
module Lifecycle {
  import opened Text
  import KrxSession

  /** The exchange clients catch every exception and take an option; the subscriber always reconnects and has no
      handler. */
  datatype Client = Exchange(reconnect: bool) | Subscriber

  /** How connecting or reading goes: well, with an error, or with an exception out of the callback. */
  datatype Outcome = Fine | Error | Throws

  /** Where a worker stands in run_loop(): at the outer test, connecting, at the inner test, reading a frame,
      in the exception handler, before the pause, or returned. */
  datatype WorkerPc = Outer | Connecting | Inner | Reading | Caught | Pause | Exited

  /** The controller between calls, inside start() before the assignment, inside stop() before the join, or
      past the destructor. */
  datatype ControlPc = Idle | Starting | Stopping | Gone

  /** `handle` is the thread worker_ can be joined with. `terminated` stands for std::terminate, called when a
      joinable std::thread is assigned over or destroyed, or when an exception leaves a thread. */
  datatype State = State(running: bool, handle: Option<nat>, workers: seq<WorkerPc>, pc: ControlPc, terminated: bool)

  const INITIAL := State(false, None, [], Idle, false)

  datatype Action = CallStart | Spawn | CallStop | Join | Destruct | Work(w: nat, outcome: Outcome)

  predicate Enabled(s: State, a: Action) {
    !s.terminated &&
    match a
    case CallStart => s.pc.Idle?
    case Spawn => s.pc.Starting?
    case CallStop => s.pc.Idle?
    case Join => s.pc.Stopping? && (s.handle.Some? ==> Finished(s, s.handle.value))
    case Destruct => s.pc.Idle? && !s.running   // the destructor has called stop()
    case Work(w, outcome) =>
      w < |s.workers| && s.workers[w] != Exited && (outcome.Throws? ==> s.workers[w] == Reading)
  }

  predicate Finished(s: State, w: nat) {
    w < |s.workers| && s.workers[w] == Exited
  }

  /** One step of run_loop(). */
  function Worked(client: Client, running: bool, pc: WorkerPc, outcome: Outcome): WorkerPc {
    var broken := if client.Subscriber? then Pause else Caught;
    match pc
    case Outer => if running then Connecting else Exited
    case Connecting => if outcome.Fine? then Inner else broken
    case Inner => if running then Reading else Pause
    case Reading => if outcome.Fine? then Inner else broken
    case Caught => Pause
    case Pause => Outer
    case Exited => Exited
  }

  function Next(client: Client, s: State, a: Action): State
    requires Enabled(s, a)
  {
    match a
    case CallStart => if s.running then s else s.(running := true, pc := Starting)
    case Spawn =>
      if s.handle.Some? then s.(terminated := true)
      else s.(handle := Some(|s.workers|), workers := s.workers + [Outer], pc := Idle)
    case CallStop => if !s.running then s else s.(running := false, pc := Stopping)
    case Join => s.(handle := None, pc := Idle)
    case Destruct => if s.handle.Some? then s.(terminated := true) else s.(pc := Gone)
    case Work(w, outcome) =>
      if client.Subscriber? && outcome.Throws? then s.(terminated := true)
      else s.(workers := s.workers[w := Worked(client, s.running, s.workers[w], outcome)],
              running := s.running && (client != Exchange(false) || s.workers[w] != Caught))
  }

  predicate Runs(client: Client, s: State, acts: seq<Action>)
    decreases |acts|
  {
    acts == [] || (Enabled(s, acts[0]) && Runs(client, Next(client, s, acts[0]), acts[1..]))
  }

  function After(client: Client, s: State, acts: seq<Action>): State
    requires Runs(client, s, acts)
    decreases |acts|
  {
    if acts == [] then s else After(client, Next(client, s, acts[0]), acts[1..])
  }

  // ----- Safety -----

  /** With reconnect on nothing brings the process down; in the subscriber nothing but an escaping exception. */
  predicate Harmless(client: Client, a: Action) {
    if client.Subscriber? then !(a.Work? && a.outcome.Throws?) else client.reconnect
  }

  predicate AllHarmless(client: Client, acts: seq<Action>) {
    forall a | a in acts :: Harmless(client, a)
  }

  predicate OthersExited(workers: seq<WorkerPc>, w: nat) {
    forall i | 0 <= i < |workers| && i != w :: workers[i] == Exited
  }

  predicate AllExited(workers: seq<WorkerPc>) {
    forall i | 0 <= i < |workers| :: workers[i] == Exited
  }

  /** Between calls the flag tells the truth: it is up exactly while one live worker can be joined, and no
      worker is left when it is down. */
  predicate Inv(s: State) {
    !s.terminated &&
    match s.pc
    case Idle => if s.running then OneLive(s) && s.workers[s.handle.value] != Exited else NoneLeft(s)
    case Starting => s.running && NoneLeft(s)
    case Stopping => !s.running && OneLive(s)
    case Gone => !s.running && NoneLeft(s)
  }

  predicate OneLive(s: State) {
    s.handle.Some? && s.handle.value < |s.workers| && OthersExited(s.workers, s.handle.value)
  }

  predicate NoneLeft(s: State) {
    s.handle.None? && AllExited(s.workers)
  }

  lemma {:induction false} InvKept(client: Client, s: State, a: Action)
    requires Inv(s) && Enabled(s, a) && Harmless(client, a)
    ensures Inv(Next(client, s, a))
  {
  }

  lemma {:induction false} RunsKeepInv(client: Client, s: State, acts: seq<Action>)
    requires Inv(s) && Runs(client, s, acts) && AllHarmless(client, acts)
    ensures Inv(After(client, s, acts))
    decreases |acts|
  {
    if acts != [] {
      assert Harmless(client, acts[0]);
      InvKept(client, s, acts[0]);
      RunsKeepInv(client, Next(client, s, acts[0]), acts[1..]);
    }
  }

  /** In every interleaving: never two live workers, never a joinable thread overwritten or destroyed, and
      whenever the controller is out of stop() with the flag down every worker has returned. */
  lemma {:induction false} LifecycleSafe(client: Client, acts: seq<Action>)
    requires Runs(client, INITIAL, acts) && AllHarmless(client, acts)
    ensures var s := After(client, INITIAL, acts);
            && !s.terminated
            && (forall i, j | 0 <= i < j < |s.workers| :: s.workers[i] == Exited || s.workers[j] == Exited)
            && (s.pc.Idle? && !s.running ==> AllExited(s.workers))
            && (s.pc.Idle? && s.running ==> OneLive(s) && s.workers[s.handle.value] != Exited)
  {
    RunsKeepInv(client, INITIAL, acts);
  }

  /** stop() comes back only once the worker has returned, whether it joined or found nothing to stop. */
  lemma {:induction false} StopWaitsForWorker(client: Client, s: State, a: Action)
    requires Inv(s) && Enabled(s, a) && (a.Join? || (a.CallStop? && !s.running))
    ensures Next(client, s, a).pc.Idle? && NoneLeft(Next(client, s, a))
  {
  }

  // ----- The join comes to an end -----

  /** The controller's part of an interleaving. */
  function Controls(acts: seq<Action>): seq<Action> {
    if acts == [] then []
    else (if acts[0].Work? then [] else [acts[0]]) + Controls(acts[1..])
  }

  /** Steps a worker still has to take once the flag is down. */
  function Rank(pc: WorkerPc): nat {
    match pc
    case Exited => 0
    case Outer => 1
    case Pause => 2
    case Inner => 3
    case Caught => 3
    case Connecting => 4
    case Reading => 4
  }

  function StepsOf(acts: seq<Action>, w: nat): nat {
    if acts == [] then 0 else (if acts[0].Work? && acts[0].w == w then 1 else 0) + StepsOf(acts[1..], w)
  }

  /** While stop() waits, each step of the worker brings it nearer to its end: after at most four of them, each
      of which may wait for a connection, a frame or the pause, the join goes through. */
  lemma {:induction false} WorkerWindsDown(client: Client, s: State, acts: seq<Action>, w: nat)
    requires Inv(s) && s.pc.Stopping? && s.handle == Some(w) && Runs(client, s, acts) && AllHarmless(client, acts)
    requires forall a | a in acts :: a.Work?
    ensures var s' := After(client, s, acts);
            && s'.pc.Stopping? && s'.handle == Some(w) && Inv(s')
            && Rank(s'.workers[w]) + StepsOf(acts, w) <= Rank(s.workers[w]) <= 4
            && (Enabled(s', Join) <==> Rank(s'.workers[w]) == 0)
    decreases |acts|
  {
    if acts != [] {
      assert acts[0] in acts && Harmless(client, acts[0]);
      InvKept(client, s, acts[0]);
      WorkerWindsDown(client, Next(client, s, acts[0]), acts[1..], w);
    }
  }

  /** And it can always take them: nobody holds up a live worker, connecting and reading may go either way, and
      the controller may call whenever it is between calls. */
  lemma {:induction false} NobodyHoldsUp(client: Client, acts: seq<Action>)
    requires Runs(client, INITIAL, acts) && AllHarmless(client, acts)
    ensures var s := After(client, INITIAL, acts);
            && (forall w | 0 <= w < |s.workers| && s.workers[w] != Exited ::
                  Enabled(s, Work(w, Fine)) && Enabled(s, Work(w, Error))
                  && (s.workers[w] == Reading ==> Enabled(s, Work(w, Throws))))
            && (s.pc.Idle? ==> Enabled(s, CallStart) && Enabled(s, CallStop))
            && (s.pc.Starting? ==> Enabled(s, Spawn))
  {
    RunsKeepInv(client, INITIAL, acts);
  }

  /** When connecting and reading go well, exactly that many of the worker's steps let the join go through. */
  lemma {:induction false} WindsDown(s: State, w: nat) returns (acts: seq<Action>)
    requires Inv(s) && s.pc.Stopping? && s.handle == Some(w)
    ensures Runs(Exchange(true), s, acts) && Controls(acts) == [] && |acts| == Rank(s.workers[w])
    ensures Enabled(After(Exchange(true), s, acts), Join)
    decreases Rank(s.workers[w])
  {
    if s.workers[w] == Exited {
      acts := [];
    } else {
      var a := Work(w, Fine);
      InvKept(Exchange(true), s, a);
      var rest := WindsDown(Next(Exchange(true), s, a), w);
      acts := [a] + rest;
      assert acts[1..] == rest;
    }
  }

  // ----- What brings the process down -----

  /** With reconnect off: the first connection fails, the worker clears the flag itself, and the next start()
      assigns over the thread nobody joined. */
  const OVERWRITTEN: seq<Action> :=
    [CallStart, Spawn, Work(0, Fine), Work(0, Error), Work(0, Fine), CallStart, Spawn]

  function OverwrittenAt(k: nat): State
    requires k <= 7
  {
    if k == 0 then INITIAL
    else if k == 1 then State(true, None, [], Starting, false)
    else if k == 2 then State(true, Some(0), [Outer], Idle, false)
    else if k == 3 then State(true, Some(0), [Connecting], Idle, false)
    else if k == 4 then State(true, Some(0), [Caught], Idle, false)
    else if k == 5 then State(false, Some(0), [Pause], Idle, false)
    else if k == 6 then State(true, Some(0), [Pause], Starting, false)
    else State(true, Some(0), [Pause], Starting, true)
  }

  lemma {:induction false} OverwrittenRuns(k: nat)
    requires k <= 7
    ensures Runs(Exchange(false), OverwrittenAt(k), OVERWRITTEN[k..])
    ensures After(Exchange(false), OverwrittenAt(k), OVERWRITTEN[k..]) == OverwrittenAt(7)
    decreases 7 - k
  {
    if k < 7 {
      assert Enabled(OverwrittenAt(k), OVERWRITTEN[k]);
      assert Next(Exchange(false), OverwrittenAt(k), OVERWRITTEN[k]) == OverwrittenAt(k + 1);
      OverwrittenRuns(k + 1);
      assert OVERWRITTEN[k..][0] == OVERWRITTEN[k] && OVERWRITTEN[k..][1..] == OVERWRITTEN[k + 1..];
    }
  }

  /** In the subscriber: the callback throws on the first message, for instance on a number that does not convert. */
  const ESCAPED: seq<Action> := [CallStart, Spawn, Work(0, Fine), Work(0, Fine), Work(0, Fine), Work(0, Throws)]

  function EscapedAt(k: nat): State
    requires k <= 6
  {
    if k == 0 then INITIAL
    else if k == 1 then State(true, None, [], Starting, false)
    else if k == 2 then State(true, Some(0), [Outer], Idle, false)
    else if k == 3 then State(true, Some(0), [Connecting], Idle, false)
    else if k == 4 then State(true, Some(0), [Inner], Idle, false)
    else State(true, Some(0), [Reading], Idle, k == 6)
  }

  lemma {:induction false} EscapedRuns(k: nat)
    requires k <= 6
    ensures Runs(Subscriber, EscapedAt(k), ESCAPED[k..])
    ensures After(Subscriber, EscapedAt(k), ESCAPED[k..]) == EscapedAt(6)
    decreases 6 - k
  {
    if k < 6 {
      assert Enabled(EscapedAt(k), ESCAPED[k]);
      assert Next(Subscriber, EscapedAt(k), ESCAPED[k]) == EscapedAt(k + 1);
      EscapedRuns(k + 1);
      assert ESCAPED[k..][0] == ESCAPED[k] && ESCAPED[k..][1..] == ESCAPED[k + 1..];
    }
  }

  ghost predicate CanTerminate(client: Client) {
    exists acts :: Runs(client, INITIAL, acts) && After(client, INITIAL, acts).terminated
  }

  /** Some interleaving brings the process down exactly when the client does not reconnect, or has no handler. */
  lemma {:induction false} TerminatesExactly(client: Client)
    ensures CanTerminate(client) <==> client != Exchange(true)
  {
    if client == Exchange(true) {
      if CanTerminate(client) {
        var acts :| Runs(client, INITIAL, acts) && After(client, INITIAL, acts).terminated;
        LifecycleSafe(client, acts);
      }
    } else if client.Subscriber? {
      EscapedRuns(0);
      assert ESCAPED[0..] == ESCAPED;
      assert Runs(client, INITIAL, ESCAPED) && After(client, INITIAL, ESCAPED).terminated;
    } else {
      OverwrittenRuns(0);
      assert OVERWRITTEN[0..] == OVERWRITTEN;
      assert Runs(client, INITIAL, OVERWRITTEN) && After(client, INITIAL, OVERWRITTEN).terminated;
    }
  }

  /** A run of the subscriber ends that way exactly when its callback throws, once. */
  lemma {:induction false} EscapeExactly(s: State, acts: seq<Action>)
    requires Inv(s) && Runs(Subscriber, s, acts)
    ensures After(Subscriber, s, acts).terminated <==> !AllHarmless(Subscriber, acts)
    decreases |acts|
  {
    if acts != [] {
      var a, s' := acts[0], Next(Subscriber, s, acts[0]);
      assert acts == [a] + acts[1..];
      if Harmless(Subscriber, a) {
        InvKept(Subscriber, s, a);
        EscapeExactly(s', acts[1..]);
        assert AllHarmless(Subscriber, acts) <==> AllHarmless(Subscriber, acts[1..]);
      } else {
        assert !Harmless(Subscriber, acts[0]);
        assert acts[1..] == [];
      }
    }
  }

  // ----- The session supervisor -----

  predicate Tradeable(state: KrxSession.State) {
    state.Regular? || state.Closing? || state.PreOpen? || state.AfterHours?
  }

  /** What one pass of the supervisor calls, given the flag it reads and the instant it samples. */
  function PassCalls(running: bool, now: nat): seq<Action> {
    var tradeable := Tradeable(KrxSession.StateAt(now));
    if tradeable && !running then [CallStart, Spawn]
    else if !tradeable && running then [CallStop, Join]
    else []
  }

  /** What one call of the controller does to the flag and to its place. */
  function Controlled(running: bool, pc: ControlPc, call: Action): (bool, ControlPc) {
    match call
    case CallStart => (true, if running then pc else Starting)
    case Spawn => (running, Idle)
    case CallStop => (false, if running then Stopping else pc)
    case Join => (running, Idle)
    case Destruct => (running, Gone)
    case Work(_, _) => (running, pc)
  }

  function ControlledBy(running: bool, pc: ControlPc, calls: seq<Action>): (bool, ControlPc)
    decreases |calls|
  {
    if calls == [] then (running, pc)
    else
      var (running', pc') := Controlled(running, pc, calls[0]);
      ControlledBy(running', pc', calls[1..])
  }

  lemma {:induction false} StepControls(client: Client, s: State, a: Action)
    requires Inv(s) && Enabled(s, a) && Harmless(client, a)
    ensures (Next(client, s, a).running, Next(client, s, a).pc) == Controlled(s.running, s.pc, a)
  {
  }

  /** The workers' steps in between do not matter to either. */
  lemma {:induction false} WorkersDoNotInterfere(client: Client, s: State, acts: seq<Action>)
    requires Inv(s) && Runs(client, s, acts) && AllHarmless(client, acts)
    ensures var s' := After(client, s, acts); (s'.running, s'.pc) == ControlledBy(s.running, s.pc, Controls(acts))
    decreases |acts|
  {
    if acts != [] {
      assert Harmless(client, acts[0]);
      InvKept(client, s, acts[0]);
      StepControls(client, s, acts[0]);
      WorkersDoNotInterfere(client, Next(client, s, acts[0]), acts[1..]);
      if !acts[0].Work? {
        assert Controls(acts)[0] == acts[0] && Controls(acts)[1..] == Controls(acts[1..]);
      } else {
        assert Controls(acts) == Controls(acts[1..]);
      }
    }
  }

  lemma {:induction false} TwoCalls(running: bool, pc: ControlPc, a: Action, b: Action, calls: seq<Action>)
    requires calls == [a, b]
    ensures var (running', pc') := Controlled(running, pc, a);
            ControlledBy(running, pc, calls) == Controlled(running', pc', b)
  {
    var (running', pc') := Controlled(running, pc, a);
    assert calls[1..] == [b] && [b][1..] == [];
    var (last, lastPc) := Controlled(running', pc', b);
    assert ControlledBy(running', pc', [b]) == ControlledBy(last, lastPc, []);
  }

  /** However the worker's steps fall between its own, a pass leaves the feed running exactly when the sampled
      instant is in trading hours, with one live worker then and none otherwise. */
  lemma {:induction false} PassFollowsSession(s: State, acts: seq<Action>, now: nat)
    requires Inv(s) && s.pc.Idle? && Runs(Exchange(true), s, acts) && Controls(acts) == PassCalls(s.running, now)
    ensures var s' := After(Exchange(true), s, acts);
            && s'.pc.Idle? && s'.running == KrxSession.InHours(now)
            && if s'.running then OneLive(s') && s'.workers[s'.handle.value] != Exited else NoneLeft(s')
  {
    KrxSession.OpenExactlyInHours(now);
    RunsKeepInv(Exchange(true), s, acts);
    WorkersDoNotInterfere(Exchange(true), s, acts);
    var calls := PassCalls(s.running, now);
    if calls != [] {
      TwoCalls(s.running, s.pc, calls[0], calls[1], calls);
    }
  }

  lemma {:induction false} RunThenOne(client: Client, s: State, acts: seq<Action>, a: Action)
    requires Runs(client, s, acts) && Enabled(After(client, s, acts), a)
    ensures Runs(client, s, acts + [a]) && Controls(acts + [a]) == Controls(acts) + Controls([a])
    decreases |acts|
  {
    if acts == [] {
      assert [] + [a] == [a] && [a][1..] == [];
    } else {
      RunThenOne(client, Next(client, s, acts[0]), acts[1..], a);
      assert (acts + [a])[1..] == acts[1..] + [a];
    }
  }

  /** Whatever instant it samples, and wherever the worker stands, the supervisor can make its pass. */
  lemma {:induction false} PassIsPossible(s: State, now: nat) returns (acts: seq<Action>)
    requires Inv(s) && s.pc.Idle?
    ensures Runs(Exchange(true), s, acts) && Controls(acts) == PassCalls(s.running, now)
  {
    var calls := PassCalls(s.running, now);
    if calls == [] {
      acts := [];
    } else if s.running {
      InvKept(Exchange(true), s, CallStop);
      var s' := Next(Exchange(true), s, CallStop);
      var waiting := WindsDown(s', s'.handle.value);
      RunThenOne(Exchange(true), s', waiting, Join);
      acts := [CallStop] + (waiting + [Join]);
      assert acts[1..] == waiting + [Join];
      assert [Join][1..] == [];
    } else {
      acts := calls;
      var s' := Next(Exchange(true), s, CallStart);
      assert acts[1..] == [Spawn] && [Spawn][1..] == [];
      assert Enabled(s', Spawn);
    }
  }

  // ----- Whole supervised runs -----

  /** One pass: the instant it samples, and its calls with the worker's steps anywhere among and after them. */
  datatype Pass = Pass(now: nat, acts: seq<Action>)

  /** The state after the passes, from the beginning; None when one of them is not a pass of the supervisor. */
  function Supervised(passes: seq<Pass>): Option<State> {
    if passes == [] then Some(INITIAL)
    else
      var before, p := Supervised(passes[..|passes| - 1]), passes[|passes| - 1];
      if before.Some? && Runs(Exchange(true), before.value, p.acts)
         && Controls(p.acts) == PassCalls(before.value.running, p.now)
      then Some(After(Exchange(true), before.value, p.acts)) else None
  }

  /** The feed is up with one live worker when the sampled instant is in trading hours, and down without any
      otherwise. */
  predicate Follows(s: State, now: nat) {
    && !s.terminated && s.pc.Idle? && s.running == KrxSession.InHours(now)
    && if s.running then OneLive(s) && s.workers[s.handle.value] != Exited else NoneLeft(s)
  }

  lemma {:induction false} SupervisedKeepsInv(passes: seq<Pass>)
    requires Supervised(passes).Some?
    ensures Inv(Supervised(passes).value) && Supervised(passes).value.pc.Idle?
    ensures passes != [] ==> Follows(Supervised(passes).value, passes[|passes| - 1].now)
  {
    if passes != [] {
      var before, p := passes[..|passes| - 1], passes[|passes| - 1];
      SupervisedKeepsInv(before);
      PassFollowsSession(Supervised(before).value, p.acts, p.now);
      RunsKeepInv(Exchange(true), Supervised(before).value, p.acts);
    }
  }

  lemma {:induction false} EarlierPasses(passes: seq<Pass>, k: nat)
    requires Supervised(passes).Some? && k <= |passes|
    ensures Supervised(passes[..k]).Some?
    decreases |passes|
  {
    if k == |passes| {
      assert passes[..k] == passes;
    } else {
      EarlierPasses(passes[..|passes| - 1], k);
      assert passes[..|passes| - 1][..k] == passes[..k];
    }
  }

  /** Over any sequence of sampled instants from the start of the process, wherever the worker's steps fall: after
      every pass the feed follows that pass's sample. */
  lemma {:induction false} SupervisorFollowsSession(passes: seq<Pass>)
    requires Supervised(passes).Some?
    ensures forall k | 0 < k <= |passes| ::
              Supervised(passes[..k]).Some? && Follows(Supervised(passes[..k]).value, passes[k - 1].now)
  {
    forall k | 0 < k <= |passes|
      ensures Supervised(passes[..k]).Some? && Follows(Supervised(passes[..k]).value, passes[k - 1].now)
    {
      EarlierPasses(passes, k);
      SupervisedKeepsInv(passes[..k]);
    }
  }
}
