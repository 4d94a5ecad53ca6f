/** Background reconnection of mesh peers: cooperative tasks that are scheduled, replaced,
    cancelled and remove themselves, and the capped exponential backoff between attempts.

    Tasks switch only where they wait, so a loop is cut at its two waits: the sleep and the
    connection attempt. A cancelled task is only ever resumed to be told so. */
module PeerRetry {

  type TaskId = nat
  type ConnectId = nat
  type CloseId = nat

  // ---- backoff ----

  const MAX_INTERVAL: real := 60.0

  function Pow2(k: nat): nat {
    if k == 0 then 1 else 2 * Pow2(k - 1)
  }

  /** The longest wait before attempt `k`. */
  function Cap(k: nat): real {
    if Pow2(k) as real < MAX_INTERVAL then Pow2(k) as real else MAX_INTERVAL
  }

  /** The first attempt whose power of two no longer fits a double: computing its delay raises,
      so the loop ends there. */
  const OVERFLOW_ATTEMPT: nat := 1024

  lemma {:induction false} Pow2Grows(j: nat, k: nat)
    requires j <= k
    ensures Pow2(j) <= Pow2(k)
  {
    if j < k {
      Pow2Grows(j, k - 1);
    }
  }

  /** The cap never exceeds the interval or the power, does not decrease, and is the interval
      from the sixth attempt on. */
  lemma CapFacts(j: nat, k: nat)
    requires j <= k
    ensures Cap(k) <= MAX_INTERVAL && Cap(k) <= Pow2(k) as real
    ensures Cap(j) <= Cap(k)
    ensures k >= 6 <==> Cap(k) == MAX_INTERVAL
  {
    Pow2Grows(j, k);
    assert Pow2(5) == 32 && Pow2(6) == 64;
    if k >= 6 { Pow2Grows(6, k); } else { Pow2Grows(k, 5); }
  }

  function TotalCap(n: nat): real {
    if n == 0 then 0.0 else TotalCap(n - 1) + Cap(n)
  }

  /** The waits of the first `n` attempts: 2 + 4 + 8 + 16 + 32 seconds at most for the first
      five, and a minute for each one after them. */
  lemma {:induction false} TotalCapIs(n: nat)
    requires n >= 5
    ensures TotalCap(n) == 62.0 + 60.0 * (n - 5) as real
  {
    if n == 5 {
      assert Pow2(1) == 2 && Pow2(2) == 4 && Pow2(3) == 8 && Pow2(4) == 16 && Pow2(5) == 32;
      assert TotalCap(1) == 2.0 && TotalCap(2) == 6.0 && TotalCap(3) == 14.0 && TotalCap(4) == 30.0;
    } else {
      TotalCapIs(n - 1);
      CapFacts(6, n);
    }
  }

  /** The wait before attempt `k`, if this fraction of the cap is drawn. */
  function Delay(k: nat, u: real): real {
    u * Cap(k)
  }

  /** What is waited before these attempts, given the fractions that were drawn for them. */
  function Waited(jitter: seq<real>): real {
    if jitter == [] then 0.0
    else Waited(jitter[..|jitter| - 1]) + Delay(|jitter|, jitter[|jitter| - 1])
  }

  /** If each time the same fraction is drawn, that fraction of all the caps is waited. */
  lemma {:induction false} ShareWaits(jitter: seq<real>, u: real)
    requires forall k | 0 <= k < |jitter| :: jitter[k] == u
    ensures Waited(jitter) == u * TotalCap(|jitter|)
  {
    if jitter != [] {
      var n := |jitter|;
      ShareWaits(jitter[..n - 1], u);
      assert Waited(jitter) == u * TotalCap(n - 1) + u * Cap(n);
      Distributes(u, TotalCap(n - 1), Cap(n));
      hide Cap;
    }
  }

  lemma Distributes(u: real, a: real, b: real)
    ensures u * (a + b) == u * a + u * b
  {
  }

  /** The largest number a double holds: 2^1024 - 2^971. */
  function LargestDouble(): nat
    ensures LargestDouble() + Pow2(971) == Pow2(1024)
  {
    Pow2Grows(971, 1024);
    Pow2(1024) - Pow2(971)
  }

  /** The power of two of an attempt fits a double exactly before the attempt at which a loop
      ends. */
  lemma OverflowsExactly(k: nat)
    ensures Pow2(k) <= LargestDouble() <==> k < OVERFLOW_ATTEMPT
  {
    var top := OVERFLOW_ATTEMPT;
    assert Pow2(top) == Pow2(top - 1) + Pow2(top - 1);
    Pow2Grows(971, top - 1);
    Pow2Positive(971);
    hide Pow2;
    if k < top { Pow2Grows(k, top - 1); } else { Pow2Grows(top, k); }
  }

  lemma Pow2Positive(k: nat)
    ensures Pow2(k) >= 1
  {
    Pow2Grows(0, k);
  }

  /** One loop left to itself: `jitter` are the random fractions drawn, `answers` what the
      connection attempts report. It stops at the first success, when the answers run out, or
      when the delay can no longer be computed. */
  method RetryAlone(jitter: seq<real>, answers: seq<bool>) returns (attempts: nat, waited: real, connected: bool)
    requires |jitter| == |answers| && forall u | u in jitter :: 0.0 <= u <= 1.0
    ensures attempts <= |answers| && attempts < OVERFLOW_ATTEMPT
    ensures 0.0 <= waited <= TotalCap(attempts) && waited == Waited(jitter[..attempts])
    ensures connected <==> attempts > 0 && answers[attempts - 1]
    ensures forall k | 0 <= k < attempts - 1 :: !answers[k]
    ensures !connected ==> attempts == |answers| || attempts == OVERFLOW_ATTEMPT - 1
  {
    attempts, waited, connected := 0, 0.0, false;
    hide Waited; hide TotalCap; hide Cap; hide Delay;
    assert Waited(jitter[..0]) == 0.0 && TotalCap(0) == 0.0 by { NoWait(jitter); }
    while attempts < |answers| && attempts + 1 < OVERFLOW_ATTEMPT && !connected
      invariant attempts <= |answers| && attempts < OVERFLOW_ATTEMPT
      invariant 0.0 <= waited <= TotalCap(attempts) && waited == Waited(jitter[..attempts])
      invariant connected <==> attempts > 0 && answers[attempts - 1]
      invariant forall k | 0 <= k < attempts - 1 :: !answers[k]
      decreases |answers| - attempts
    {
      attempts := attempts + 1;
      assert jitter[attempts - 1] in jitter;
      OneMoreWait(jitter, attempts, waited);
      waited := waited + Delay(attempts, jitter[attempts - 1]);
      connected := answers[attempts - 1];
    }
  }

  lemma NoWait(jitter: seq<real>)
    ensures Waited(jitter[..0]) == 0.0 && TotalCap(0) == 0.0
  {
  }

  /** One more wait keeps within the caps. */
  lemma OneMoreWait(jitter: seq<real>, n: nat, waited: real)
    requires 0 < n <= |jitter| && 0.0 <= jitter[n - 1] <= 1.0
    requires 0.0 <= waited <= TotalCap(n - 1) && waited == Waited(jitter[..n - 1])
    ensures var now := waited + Delay(n, jitter[n - 1]);
      0.0 <= now <= TotalCap(n) && now == Waited(jitter[..n])
  {
    CapUnfolds(n);
    hide *;
    WaitedUnfolds(jitter, n);
    DelayShrinks(n, jitter[n - 1]);
  }

  lemma CapUnfolds(n: nat)
    requires n > 0
    ensures Cap(n) >= 0.0 && TotalCap(n) == TotalCap(n - 1) + Cap(n)
  {
  }

  lemma WaitedUnfolds(jitter: seq<real>, n: nat)
    requires 0 < n <= |jitter|
    ensures Waited(jitter[..n]) == Waited(jitter[..n - 1]) + Delay(n, jitter[n - 1])
  {
    assert jitter[..n][..n - 1] == jitter[..n - 1];
    hide Delay;
  }

  lemma DelayShrinks(k: nat, u: real)
    requires 0.0 <= u <= 1.0 && Cap(k) >= 0.0
    ensures 0.0 <= Delay(k, u) <= Cap(k)
  {
    hide Cap;
    assert Cap(k) - u * Cap(k) == (1.0 - u) * Cap(k);
  }

  // ---- the tasks ----

  datatype LoopPhase = Sleeping | Connecting | Ended

  datatype Loop = Loop(peer: string, attempt: nat, phase: LoopPhase, cancelled: bool) {
    predicate Live() {
      !cancelled && !phase.Ended?
    }

    /** Ended by the overflow of its own delay. */
    predicate Died() {
      phase.Ended? && attempt >= OVERFLOW_ATTEMPT
    }
  }

  datatype ConnectAll = ConnectAll(todo: seq<string>, failed: seq<string>)

  datatype World = World(
    peers: seq<string>,
    clients: set<string>,
    retry: map<string, TaskId>,
    loops: map<TaskId, Loop>,
    nextTask: TaskId,
    connects: map<ConnectId, ConnectAll>,
    closes: map<CloseId, bool>)

  /** Writing the clients. A closing that is under way iterates them, so `closes` notes for each
      one whether they have changed since it started. */
  function SetClients(w: World, clients: set<string>): World {
    if clients == w.clients then w
    else w.(clients := clients, closes := map k | k in w.closes :: true)
  }

  function Cancel(w: World, t: TaskId): World {
    if t in w.loops then w.(loops := w.loops[t := w.loops[t].(cancelled := true)]) else w
  }

  /** Cancels the peer's stored loop, if any, and starts a new one in its place. */
  function Schedule(w: World, peer: string): World {
    var w' := if peer in w.retry then Cancel(w, w.retry[peer]) else w;
    w'.(loops := w'.loops[w.nextTask := Loop(peer, 1, Sleeping, false)],
        retry := w'.retry[peer := w.nextTask],
        nextTask := w.nextTask + 1)
  }

  function ScheduleAll(w: World, names: seq<string>): World
    decreases |names|
  {
    if names == [] then w else Schedule(ScheduleAll(w, names[..|names| - 1]), names[|names| - 1])
  }

  /** The end of a loop's connection attempt. */
  function Attempted(w: World, t: TaskId, ok: bool): World
    requires t in w.loops
  {
    var l := w.loops[t];
    if ok then
      SetClients(w, w.clients + {l.peer}).(retry := w.retry - {l.peer}, loops := w.loops[t := l.(phase := Ended)])
    else if l.attempt + 1 >= OVERFLOW_ATTEMPT then
      w.(loops := w.loops[t := l.(attempt := l.attempt + 1, phase := Ended)])
    else
      w.(loops := w.loops[t := l.(attempt := l.attempt + 1, phase := Sleeping)])
  }

  function CancelStored(w: World): World {
    w.(loops := map t | t in w.loops :: if t in w.retry.Values then w.loops[t].(cancelled := true) else w.loops[t],
       retry := map[])
  }

  datatype Step =
    | ConnectStart(c: ConnectId)
    | ConnectNext(c: ConnectId, ok: bool)
    | ConnectFinish(c: ConnectId)
    | Wake(t: TaskId)
    | Attempt(t: TaskId, ok: bool)
    | Deliver(t: TaskId)
    | CloseStart(k: CloseId)
    | CloseFinish(k: CloseId, completed: bool)

  predicate Enabled(w: World, s: Step) {
    match s
    case ConnectStart(c) => c !in w.connects
    case ConnectNext(c, _) => c in w.connects && w.connects[c].todo != []
    case ConnectFinish(c) => c in w.connects && w.connects[c].todo == []
    case Wake(t) => t in w.loops && w.loops[t].Live() && w.loops[t].phase.Sleeping?
    case Attempt(t, _) => t in w.loops && w.loops[t].Live() && w.loops[t].phase.Connecting?
    case Deliver(t) => t in w.loops && w.loops[t].cancelled && !w.loops[t].phase.Ended?
    case CloseStart(k) => k !in w.closes
    case CloseFinish(k, completed) => k in w.closes && (!w.closes[k] ==> completed)
  }

  function Next(w: World, s: Step): World
    requires Enabled(w, s)
  {
    match s
    case ConnectStart(c) => w.(connects := w.connects[c := ConnectAll(w.peers, [])])
    case ConnectNext(c, ok) =>
      var ca := w.connects[c];
      var rest := ConnectAll(ca.todo[1..], if ok then ca.failed else ca.failed + [ca.todo[0]]);
      (if ok then SetClients(w, w.clients + {ca.todo[0]}) else w).(connects := w.connects[c := rest])
    case ConnectFinish(c) => ScheduleAll(w, w.connects[c].failed).(connects := w.connects - {c})
    case Wake(t) => w.(loops := w.loops[t := w.loops[t].(phase := Connecting)])
    case Attempt(t, ok) => Attempted(w, t, ok)
    case Deliver(t) => w.(loops := w.loops[t := w.loops[t].(phase := Ended)])
    case CloseStart(k) => CancelStored(w).(closes := w.closes[k := false])
    case CloseFinish(k, completed) =>
      // a dictionary that changed while it was iterated can make the rest of the call raise
      var w' := w.(closes := w.closes - {k});
      if completed then SetClients(w', {}) else w'
  }

  function Exec(w: World, steps: seq<Step>): (r: (World, bool))
    decreases |steps|
  {
    if steps == [] then (w, true)
    else if !Enabled(w, steps[0]) then (w, false)
    else Exec(Next(w, steps[0]), steps[1..])
  }

  function Start(peers: seq<string>): World {
    World(peers, {}, map[], map[], 0, map[], map[])
  }

  // ---- the client object ----

  class MeshPeerClient {
    const peers: seq<string>
    var clients: set<string>
    var retry: map<string, TaskId>
    var loops: map<TaskId, Loop>
    var nextTask: TaskId
    var connects: map<ConnectId, ConnectAll>
    var closes: map<CloseId, bool>

    function View(): World
      reads this
    {
      World(peers, clients, retry, loops, nextTask, connects, closes)
    }

    constructor (peers: seq<string>)
      ensures View() == Start(peers)
    {
      this.peers := peers;
      clients, retry, loops, nextTask, connects, closes := {}, map[], map[], 0, map[], map[];
    }

    method ReplaceClients(now: set<string>)
      modifies `clients, `closes
      ensures View() == SetClients(old(View()), now)
    {
      if now != clients {
        closes := map k | k in closes :: true;
      }
      clients := now;
    }

    /** Connecting to all peers, up to its first wait. */
    method StartConnectAll(c: ConnectId)
      requires c !in connects
      modifies this
      ensures View() == Next(old(View()), ConnectStart(c))
    {
      connects := connects[c := ConnectAll(peers, [])];
    }

    /** The connection to the next of all peers comes back. */
    method PeerAnswered(c: ConnectId, ok: bool)
      requires c in connects && connects[c].todo != []
      modifies this
      ensures View() == Next(old(View()), ConnectNext(c, ok))
    {
      var todo, failed := connects[c].todo, connects[c].failed;
      if ok {
        ReplaceClients(clients + {todo[0]});
      } else {
        failed := failed + [todo[0]];
      }
      connects := connects[c := ConnectAll(todo[1..], failed)];
    }

    method SchedulePeerRetry(peer: string)
      modifies this
      ensures View() == Schedule(old(View()), peer)
    {
      if peer in retry && retry[peer] in loops {
        loops := loops[retry[peer] := loops[retry[peer]].(cancelled := true)];
      }
      loops := loops[nextTask := Loop(peer, 1, Sleeping, false)];
      retry := retry[peer := nextTask];
      nextTask := nextTask + 1;
    }

    /** The last part of connecting to all peers: one retry loop for each that failed. */
    method FinishConnectAll(c: ConnectId)
      requires c in connects && connects[c].todo == []
      modifies this
      ensures View() == Next(old(View()), ConnectFinish(c))
    {
      var failed := connects[c].failed;
      for k := 0 to |failed|
        invariant View() == ScheduleAll(old(View()), failed[..k])
        invariant connects == old(connects)
      {
        assert failed[..k + 1][..k] == failed[..k];
        SchedulePeerRetry(failed[k]);
        ScheduleKeepsConnects(old(View()), failed[..k + 1]);
      }
      assert failed[..|failed|] == failed;
      connects := connects - {c};
    }

    /** A loop's connection attempt comes back. */
    method LoopAttempted(t: TaskId, ok: bool)
      requires t in loops && loops[t].Live() && loops[t].phase.Connecting?
      modifies this
      ensures View() == Next(old(View()), Attempt(t, ok))
    {
      var l := loops[t];
      if ok {
        ReplaceClients(clients + {l.peer});
        if l.peer in retry {
          retry := retry - {l.peer};
        }
        assert retry == old(retry) - {l.peer};
        loops := loops[t := l.(phase := Ended)];
        return;
      }
      var attempt := l.attempt + 1;
      loops := loops[t := l.(attempt := attempt, phase := if attempt >= OVERFLOW_ATTEMPT then Ended else Sleeping)];
    }

    /** Closing, up to its first wait: every stored loop is cancelled and forgotten. */
    method StartClose(k: CloseId)
      requires k !in closes
      modifies this
      ensures View() == Next(old(View()), CloseStart(k))
    {
      var names := retry.Keys;
      while names != {}
        invariant names <= retry.Keys && retry == old(retry)
        invariant loops.Keys == old(loops.Keys)
        invariant forall t | t in loops ::
          loops[t] == (if exists p | p in retry.Keys - names :: retry[p] == t then old(loops)[t].(cancelled := true)
                       else old(loops)[t])
        invariant View() == old(View()).(loops := loops)
        decreases names
      {
        var name :| name in names;
        names := names - {name};
        if retry[name] in loops {
          loops := loops[retry[name] := loops[retry[name]].(cancelled := true)];
        }
      }
      retry := map[];
      closes := closes[k := false];
      assert loops == CancelStored(old(View())).loops;
    }

    /** The clients have been closed one by one, or the iteration over them raised. */
    method FinishClose(k: CloseId, completed: bool)
      requires k in closes && (!closes[k] ==> completed)
      modifies this
      ensures View() == Next(old(View()), CloseFinish(k, completed))
    {
      closes := closes - {k};
      if completed {
        ReplaceClients({});
      }
    }
  }

  lemma {:induction false} ScheduleKeepsConnects(w: World, names: seq<string>)
    ensures ScheduleAll(w, names).connects == w.connects
    decreases |names|
  {
    if names != [] {
      ScheduleKeepsConnects(w, names[..|names| - 1]);
    }
  }

  /** The task whose own turn a step is. */
  function Turn(s: Step): int {
    match s
    case Wake(t) => t
    case Attempt(t, _) => t
    case Deliver(t) => t
    case _ => -1
  }

  // ---- one live loop per peer, and it is the stored one ----

  /** Every stored loop belongs to its peer and is live, or died of the overflow; and every live
      loop is the stored one. */
  ghost predicate Tidy(w: World) {
    && (forall p | p in w.retry ::
          && w.retry[p] in w.loops
          && w.loops[w.retry[p]].peer == p
          && !w.loops[w.retry[p]].cancelled
          && (w.loops[w.retry[p]].Live() || w.loops[w.retry[p]].Died()))
    && (forall t | t in w.loops && w.loops[t].Live() ::
          w.loops[t].peer in w.retry && w.retry[w.loops[t].peer] == t && w.loops[t].attempt < OVERFLOW_ATTEMPT)
    && (forall t | t in w.loops :: t < w.nextTask)
  }

  lemma ScheduleKeepsTidy(w: World, peer: string)
    requires Tidy(w)
    ensures Tidy(Schedule(w, peer))
  {
  }

  lemma {:induction false} ScheduleAllKeepsTidy(w: World, names: seq<string>)
    requires Tidy(w)
    ensures Tidy(ScheduleAll(w, names))
    decreases |names|
  {
    if names != [] {
      ScheduleAllKeepsTidy(w, names[..|names| - 1]);
      ScheduleKeepsTidy(ScheduleAll(w, names[..|names| - 1]), names[|names| - 1]);
    }
  }

  lemma CancelStoredKeepsTidy(w: World)
    requires Tidy(w)
    ensures Tidy(CancelStored(w))
    ensures forall t | t in CancelStored(w).loops :: !CancelStored(w).loops[t].Live()
  {
    var w' := CancelStored(w);
    forall t | t in w'.loops ensures !w'.loops[t].Live() {
      if w.loops[t].Live() {
        assert w.retry[w.loops[t].peer] in w.retry.Values;
      }
    }
  }

  lemma SameLoopsTidy(w: World, v: World)
    requires Tidy(w) && v.loops == w.loops && v.retry == w.retry && v.nextTask == w.nextTask
    ensures Tidy(v)
  {
  }

  /** A turn of one loop. */
  lemma TurnKeepsTidy(w: World, s: Step)
    requires Tidy(w) && Enabled(w, s) && (s.Wake? || s.Attempt? || s.Deliver?)
    ensures Tidy(Next(w, s))
  {
    assert w.loops[Turn(s)].Live() ==> w.loops[Turn(s)].attempt < OVERFLOW_ATTEMPT;
    hide Tidy; hide ScheduleAll; hide CancelStored;
    var v := Next(w, s);
    if s.Attempt? && s.ok {
      ReconnectedTidy(w, s.t);
      SameLoopsTidy(Reconnected(w, s.t), v);
    } else {
      var l := v.loops[Turn(s)];
      OneLoopTidy(w, Turn(s), l);
      SameLoopsTidy(w.(loops := w.loops[Turn(s) := l]), v);
    }
  }

  /** One loop moves on, or ends without its peer being connected. */
  lemma OneLoopTidy(w: World, t: TaskId, l: Loop)
    requires Tidy(w) && t in w.loops && l.peer == w.loops[t].peer && l.cancelled == w.loops[t].cancelled
    requires (l.Live() ==> l.attempt < OVERFLOW_ATTEMPT) && (w.loops[t].Live() ==> l.Live() || l.Died())
    requires !w.loops[t].Live() ==> !l.Live() && (w.loops[t].Died() ==> l.Died())
    ensures Tidy(w.(loops := w.loops[t := l]))
  {
  }

  function Reconnected(w: World, t: TaskId): World
    requires t in w.loops
  {
    w.(retry := w.retry - {w.loops[t].peer}, loops := w.loops[t := w.loops[t].(phase := Ended)])
  }

  lemma ReconnectedTidy(w: World, t: TaskId)
    requires Tidy(w) && t in w.loops && w.loops[t].Live()
    ensures Tidy(Reconnected(w, t))
  {
  }

  lemma StepKeepsTidy(w: World, s: Step)
    requires Tidy(w) && Enabled(w, s)
    ensures Tidy(Next(w, s))
  {
    hide Tidy;
    match s
    case ConnectFinish(c) =>
      ScheduleAllKeepsTidy(w, w.connects[c].failed);
      SameLoopsTidy(ScheduleAll(w, w.connects[c].failed), Next(w, s));
    case CloseStart(_) =>
      CancelStoredKeepsTidy(w);
      SameLoopsTidy(CancelStored(w), Next(w, s));
    case Wake(_) => TurnKeepsTidy(w, s);
    case Attempt(_, _) => TurnKeepsTidy(w, s);
    case Deliver(_) => TurnKeepsTidy(w, s);
    case _ => SameLoopsTidy(w, Next(w, s));
  }

  /** Over every interleaving, a peer has at most one live loop, and it is the stored one. */
  lemma {:induction false} OneLoopPerPeer(w: World, steps: seq<Step>, t: TaskId, u: TaskId)
    requires Tidy(w) && Exec(w, steps).1
    ensures var v := Exec(w, steps).0;
      && Tidy(v)
      && (t in v.loops && v.loops[t].Live() ==> v.loops[t].peer in v.retry && v.retry[v.loops[t].peer] == t)
      && (t in v.loops && u in v.loops && v.loops[t].Live() && v.loops[u].Live() ==>
            v.loops[t].peer == v.loops[u].peer ==> t == u)
    decreases |steps|
  {
    if steps != [] {
      StepKeepsTidy(w, steps[0]);
      OneLoopPerPeer(Next(w, steps[0]), steps[1..], t, u);
    }
  }

  lemma StartIsTidy(peers: seq<string>)
    ensures Tidy(Start(peers))
  {
  }

  /** In particular over every run from the start. */
  lemma OneLoopFromStart(peers: seq<string>, steps: seq<Step>, t: TaskId, u: TaskId)
    requires Exec(Start(peers), steps).1
    ensures var v := Exec(Start(peers), steps).0;
      t in v.loops && u in v.loops && v.loops[t].Live() && v.loops[u].Live() && v.loops[t].peer == v.loops[u].peer ==>
        t == u && v.loops[t].peer in v.retry && v.retry[v.loops[t].peer] == t
  {
    StartIsTidy(peers);
    OneLoopPerPeer(Start(peers), steps, t, u);
    hide Tidy; hide Exec;
  }

  /** A cancelled loop stays cancelled, and a turn of its own changes nothing but its own end. */
  lemma CancelledIsInert(w: World, s: Step, t: TaskId)
    requires Tidy(w) && Enabled(w, s) && t in w.loops && w.loops[t].cancelled
    ensures var w' := Next(w, s);
      && t in w'.loops && w'.loops[t].cancelled && !w'.loops[t].Live()
      && (Turn(s) == t ==> w' == w.(loops := w.loops[t := w.loops[t].(phase := Ended)]))
  {
    if s.ConnectFinish? {
      ScheduleAllKeepsCancelled(w, w.connects[s.c].failed, t);
    }
  }

  lemma {:induction false} ScheduleAllKeepsCancelled(w: World, names: seq<string>, t: TaskId)
    requires Tidy(w) && t in w.loops && w.loops[t].cancelled
    ensures var v := ScheduleAll(w, names); t in v.loops && v.loops[t].cancelled
    decreases |names|
  {
    if names != [] {
      ScheduleAllKeepsCancelled(w, names[..|names| - 1], t);
      ScheduleAllKeepsTidy(w, names[..|names| - 1]);
    }
  }

  // ---- closing ----

  /** No loop lives and nobody is connecting to all peers. */
  predicate Quiet(w: World) {
    && w.connects == map[]
    && forall t | t in w.loops :: !w.loops[t].Live()
  }

  /** The closing is over or the clients are as it found them or gone, and if it is over they
      are gone. */
  predicate Closing(w: World, k: CloseId) {
    if k in w.closes then w.closes[k] ==> w.clients == {} else w.clients == {}
  }

  /** Closing with nobody connecting leaves no loop alive. From then on, in every run that does
      not connect to all peers anew, with any other closings under way, no loop comes alive and
      no client is ever added; and once this closing has finished there are no clients. */
  lemma CloseStops(w: World, k: CloseId, steps: seq<Step>)
    requires Tidy(w) && Enabled(w, CloseStart(k)) && w.connects == map[]
    requires Exec(Next(w, CloseStart(k)), steps).1
    requires forall s | s in steps :: !s.ConnectStart?
    ensures var v := Exec(Next(w, CloseStart(k)), steps).0;
      && Quiet(v)
      && v.clients <= w.clients
      && ((exists s | s in steps :: s.CloseFinish? && s.k == k) ==> v.clients == {})
  {
    CancelStoredKeepsTidy(w);
    QuietRuns(Next(w, CloseStart(k)), k, steps);
  }

  lemma {:induction false} QuietRuns(w: World, k: CloseId, steps: seq<Step>)
    requires Quiet(w) && Closing(w, k) && Exec(w, steps).1
    requires forall s | s in steps :: !s.ConnectStart?
    ensures var v := Exec(w, steps).0;
      && Quiet(v)
      && v.clients <= w.clients
      && ((exists s | s in steps :: s.CloseFinish? && s.k == k) ==> v.clients == {})
    decreases |steps|
  {
    if steps != [] {
      var w' := Next(w, steps[0]);
      assert steps == [steps[0]] + steps[1..];
      QuietStep(w, k, steps[0]);
      hide Quiet; hide Closing; hide Next; hide Enabled;
      QuietRuns(w', k, steps[1..]);
    }
  }

  lemma QuietStep(w: World, k: CloseId, s: Step)
    requires Quiet(w) && Closing(w, k) && Enabled(w, s) && !s.ConnectStart?
    ensures var w' := Next(w, s);
      && Quiet(w') && Closing(w', k)
      && w'.clients <= w.clients
      && (s.CloseFinish? && s.k == k ==> w'.clients == {})
  {
  }

  // ---- giving up ----

  /** After a failed attempt a loop goes on exactly when the next delay can be computed; a loop
      that ends there stays stored, so the peer is not retried any more although it neither
      reconnected nor was closed. */
  lemma FailedAttemptGoesOnExactly(w: World, t: TaskId)
    requires Tidy(w) && Enabled(w, Attempt(t, false))
    ensures var w' := Next(w, Attempt(t, false));
      && (w'.loops[t].Live() <==> w.loops[t].attempt + 1 < OVERFLOW_ATTEMPT)
      && w'.retry == w.retry && w'.retry[w.loops[t].peer] == t
      && w'.clients == w.clients
  {
  }
}
