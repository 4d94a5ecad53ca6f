/** What becomes of every peer over whole runs: which peers are connected, which are retried, and when
    closing can be disturbed. */
module PeerRuns {
  import opened PeerRetry

  // ---- connecting to all peers ----

  /** What the peers answered to this call, in order. */
  function Answers(steps: seq<Step>, c: ConnectId): seq<bool> {
    if steps == [] then []
    else
      var rest, s := Answers(steps[..|steps| - 1], c), steps[|steps| - 1];
      if s.ConnectNext? && s.c == c then rest + [s.ok] else rest
  }

  /** The peers at these positions that answered no. */
  function Refusing(peers: seq<string>, answers: seq<bool>): seq<string>
    requires |answers| <= |peers|
  {
    if answers == [] then []
    else
      var k := |answers| - 1;
      Refusing(peers, answers[..k]) + if answers[k] then [] else [peers[k]]
  }

  /** The call has asked the first peers in order and noted those that refused. */
  predicate Asking(w: World, c: ConnectId, peers: seq<string>, answers: seq<bool>) {
    && w.peers == peers && |answers| <= |peers| && c in w.connects
    && w.connects[c] == ConnectAll(peers[|answers|..], Refusing(peers, answers))
  }

  lemma ScheduleAllFrame(w: World, names: seq<string>)
    ensures var v := ScheduleAll(w, names);
      v.peers == w.peers && v.clients == w.clients && v.connects == w.connects && v.closes == w.closes
    decreases |names|
  {
    if names != [] { ScheduleAllFrame(w, names[..|names| - 1]); }
  }

  lemma OtherStepsKeepAsking(w: World, s: Step, c: ConnectId)
    requires c in w.connects && Enabled(w, s) && !(s.ConnectFinish? && s.c == c) && !(s.ConnectNext? && s.c == c)
    ensures var v := Next(w, s); v.peers == w.peers && c in v.connects && v.connects[c] == w.connects[c]
  {
    if s.ConnectFinish? { ScheduleAllFrame(w, w.connects[s.c].failed); }
    hide ScheduleAll;
  }

  lemma NextAsked(w: World, c: ConnectId, ok: bool)
    requires Enabled(w, ConnectNext(c, ok))
    ensures var v, ca := Next(w, ConnectNext(c, ok)), w.connects[c];
      && v.peers == w.peers && c in v.connects
      && v.connects[c] == ConnectAll(ca.todo[1..], if ok then ca.failed else ca.failed + [ca.todo[0]])
  {
    hide ScheduleAll; hide CancelStored;
  }

  lemma RefusingSnoc(peers: seq<string>, answers: seq<bool>, ok: bool)
    requires |answers| < |peers|
    ensures peers[|answers|..][0] == peers[|answers|] && peers[|answers|..][1..] == peers[|answers| + 1..]
    ensures Refusing(peers, answers + [ok]) ==
            if ok then Refusing(peers, answers) else Refusing(peers, answers) + [peers[|answers|]]
  {
    assert (answers + [ok])[..|answers|] == answers;
  }

  lemma StepAsks(w: World, s: Step, c: ConnectId, peers: seq<string>, answers: seq<bool>)
    requires Asking(w, c, peers, answers) && Enabled(w, s) && !(s.ConnectFinish? && s.c == c)
    ensures Asking(Next(w, s), c, peers, if s.ConnectNext? && s.c == c then answers + [s.ok] else answers)
  {
    hide Next; hide Refusing;
    if s.ConnectNext? && s.c == c {
      NextAsked(w, c, s.ok);
      RefusingSnoc(peers, answers, s.ok);
    } else {
      OtherStepsKeepAsking(w, s, c);
    }
  }

  lemma {:induction false} ExecSnoc(w: World, steps: seq<Step>)
    requires steps != []
    ensures var front, s := steps[..|steps| - 1], steps[|steps| - 1];
      Exec(w, steps).1 ==>
        && Exec(w, front).1 && Enabled(Exec(w, front).0, s)
        && Exec(w, steps).0 == Next(Exec(w, front).0, s)
    decreases |steps|
  {
    hide Next; hide Enabled;
    if |steps| > 1 && Enabled(w, steps[0]) {
      ExecSnoc(Next(w, steps[0]), steps[1..]);
      assert steps[1..][..|steps[1..]| - 1] == steps[..|steps| - 1][1..];
    }
  }

  lemma {:induction false} RunAsks(w: World, c: ConnectId, steps: seq<Step>)
    requires Asking(w, c, w.peers, []) && Exec(w, steps).1
    requires forall s | s in steps :: !(s.ConnectFinish? && s.c == c)
    ensures Asking(Exec(w, steps).0, c, w.peers, Answers(steps, c))
  {
    if steps != [] {
      var front, s := steps[..|steps| - 1], steps[|steps| - 1];
      ExecSnoc(w, steps);
      assert s in steps && forall x | x in front :: x in steps;
      RunAsks(w, c, front);
      StepAsks(Exec(w, front).0, s, c, w.peers, Answers(front, c));
      hide Asking; hide Exec; hide Next; hide Enabled;
    }
  }

  /** The next peer is asked, and is connected exactly if it answers; no loop is touched. */
  lemma AnswerConnects(w: World, c: ConnectId, ok: bool)
    requires Enabled(w, ConnectNext(c, ok))
    ensures var v, asked := Next(w, ConnectNext(c, ok)), w.connects[c].todo[0];
      && v.clients == (if ok then w.clients + {asked} else w.clients)
      && v.loops == w.loops && v.retry == w.retry && v.peers == w.peers
      && v.connects[c].todo == w.connects[c].todo[1..]
  {
  }

  /** The loop that is stored for a peer is a new one that has not tried yet. */
  predicate StartedFor(w: World, v: World, p: string) {
    && p in v.retry && v.retry[p] >= w.nextTask
    && v.retry[p] in v.loops && v.loops[v.retry[p]] == Loop(p, 1, Sleeping, false)
  }

  predicate SameFor(w: World, v: World, p: string) {
    && (p in v.retry <==> p in w.retry)
    && (p in w.retry && w.retry[p] in w.loops ==>
          v.retry[p] == w.retry[p] && w.retry[p] in v.loops && v.loops[w.retry[p]] == w.loops[w.retry[p]])
  }

  /** Scheduling starts a new loop for every name given and leaves the other peers' loops alone. */
  lemma {:induction false} SchedulesExactly(w: World, names: seq<string>, p: string)
    requires Tidy(w)
    ensures var v := ScheduleAll(w, names);
      && v.nextTask >= w.nextTask
      && if p in names then StartedFor(w, v, p) else SameFor(w, v, p)
    decreases |names|
  {
    if names != [] {
      var front, last := names[..|names| - 1], names[|names| - 1];
      var u := ScheduleAll(w, front);
      SchedulesExactly(w, front, p);
      ScheduleAllKeepsTidy(w, front);
      assert names == front + [last];
      if p != last { OtherScheduled(w, u, last, p); }
      hide Tidy; hide ScheduleAll;
    }
  }

  lemma OtherScheduled(w: World, u: World, last: string, p: string)
    requires Tidy(w) && Tidy(u) && p != last
    ensures StartedFor(w, u, p) ==> StartedFor(w, Schedule(u, last), p)
    ensures SameFor(w, u, p) ==> SameFor(w, Schedule(u, last), p)
  {
  }

  lemma {:induction false} RefusingExactly(peers: seq<string>, answers: seq<bool>, p: string)
    requires |answers| <= |peers|
    ensures p in Refusing(peers, answers) <==> exists i | 0 <= i < |answers| :: !answers[i] && peers[i] == p
  {
    if answers != [] {
      var k := |answers| - 1;
      RefusingExactly(peers, answers[..k], p);
      var rest := Refusing(peers, answers[..k]);
      assert Refusing(peers, answers) == rest + if answers[k] then [] else [peers[k]];
      hide Refusing;
    }
  }

  /** Over every interleaving of a call that connects to all peers: when it comes to its end it has
      an answer of each peer, in the order of the configuration; and then exactly the peers that
      refused get a new retry loop, while those of all others stay as they are. */
  lemma RefusingPeersAreRetried(w: World, c: ConnectId, steps: seq<Step>, p: string)
    requires Tidy(w) && c !in w.connects && Exec(Next(w, ConnectStart(c)), steps).1
    requires forall s | s in steps :: !(s.ConnectFinish? && s.c == c)
    requires Enabled(Exec(Next(w, ConnectStart(c)), steps).0, ConnectFinish(c))
    ensures var u := Exec(Next(w, ConnectStart(c)), steps).0; var v := Next(u, ConnectFinish(c));
      var answers := Answers(steps, c);
      && |answers| == |w.peers| && v.clients == u.clients && c !in v.connects
      && if exists i | 0 <= i < |w.peers| :: w.peers[i] == p && !answers[i]
         then StartedFor(u, v, p) else SameFor(u, v, p)
  {
    var start := Next(w, ConnectStart(c));
    assert Asking(start, c, w.peers, []);
    RunAsks(start, c, steps);
    StepKeepsTidy(w, ConnectStart(c));
    OneLoopPerPeer(start, steps, 0, 0);
    var u := Exec(start, steps).0;
    var failed := u.connects[c].failed;
    SchedulesExactly(u, failed, p);
    ScheduleAllFrame(u, failed);
    RefusingExactly(w.peers, Answers(steps, c), p);
    hide Exec; hide Answers; hide ScheduleAll; hide Tidy; hide Refusing; hide CancelStored;
  }

  // ---- the turns of one loop ----

  /** A turn changes one loop and, only if it connects, the clients and what is stored for its peer:
      it wakes to connect; a success ends it, adds the client and forgets the loop; a failure puts
      it to sleep before the next attempt, unless the delay no longer fits a double. */
  lemma TurnsExactly(w: World, s: Step)
    requires Enabled(w, s) && (s.Wake? || s.Attempt?)
    ensures var v, l := Next(w, s), w.loops[s.t];
      && v.loops.Keys == w.loops.Keys && v.connects == w.connects
      && (forall t | t in w.loops && t != s.t :: v.loops[t] == w.loops[t])
      && (s.Wake? ==> v.loops[s.t] == l.(phase := Connecting) && v.clients == w.clients && v.retry == w.retry)
      && (s.Attempt? && s.ok ==>
            && v.loops[s.t] == l.(phase := Ended) && v.clients == w.clients + {l.peer}
            && v.retry == w.retry - {l.peer})
      && (s.Attempt? && !s.ok ==>
            && v.clients == w.clients && v.retry == w.retry
            && v.loops[s.t] == l.(attempt := l.attempt + 1,
                                  phase := if Pow2(l.attempt + 1) <= LargestDouble() then Sleeping else Ended))
  {
    OverflowsExactly(w.loops[s.t].attempt + 1);
    hide Pow2; hide LargestDouble; hide ScheduleAll; hide CancelStored;
  }

  // ---- when closing can be disturbed ----

  /** Some step of the run changes the clients. */
  ghost predicate ClientsChange(w: World, steps: seq<Step>) {
    exists k | 0 <= k < |steps| :: Exec(w, steps[..k + 1]).0.clients != Exec(w, steps[..k]).0.clients
  }

  /** The closing is under way, and knows whether the clients have changed. */
  predicate Watching(w: World, k: CloseId, changed: bool) {
    k in w.closes && w.closes[k] == changed
  }

  lemma StepWatches(w: World, s: Step, k: CloseId, changed: bool)
    requires Watching(w, k, changed) && Enabled(w, s) && !(s.CloseFinish? && s.k == k)
    ensures Watching(Next(w, s), k, changed || Next(w, s).clients != w.clients)
  {
    if s.ConnectFinish? { ScheduleAllFrame(w, w.connects[s.c].failed); }
    hide ScheduleAll; hide CancelStored;
  }

  lemma ChangeSnoc(w: World, steps: seq<Step>)
    requires steps != []
    ensures var front := steps[..|steps| - 1];
      ClientsChange(w, steps) <==> ClientsChange(w, front) || Exec(w, steps).0.clients != Exec(w, front).0.clients
  {
    var front := steps[..|steps| - 1];
    assert forall k | 0 <= k <= |front| :: front[..k] == steps[..k];
    assert steps[..|steps|] == steps && front[..|front|] == front;
    hide Exec;
    if ClientsChange(w, steps) {
      var k :| 0 <= k < |steps| && Exec(w, steps[..k + 1]).0.clients != Exec(w, steps[..k]).0.clients;
      assert k < |front| ==> front[..k + 1] == steps[..k + 1] && front[..k] == steps[..k];
    }
    if ClientsChange(w, front) {
      var k :| 0 <= k < |front| && Exec(w, front[..k + 1]).0.clients != Exec(w, front[..k]).0.clients;
      assert front[..k + 1] == steps[..k + 1] && front[..k] == steps[..k];
    }
    if Exec(w, steps).0.clients != Exec(w, front).0.clients {
      assert steps[..|front| + 1] == steps && steps[..|front|] == front;
    }
  }

  lemma {:induction false} RunWatches(w: World, k: CloseId, steps: seq<Step>)
    requires Watching(w, k, false) && Exec(w, steps).1
    requires forall s | s in steps :: !(s.CloseFinish? && s.k == k)
    ensures Watching(Exec(w, steps).0, k, ClientsChange(w, steps))
  {
    if steps != [] {
      var front, s := steps[..|steps| - 1], steps[|steps| - 1];
      ExecSnoc(w, steps);
      ChangeSnoc(w, steps);
      assert s in steps && forall x | x in front :: x in steps;
      RunWatches(w, k, front);
      StepWatches(Exec(w, front).0, s, k, ClientsChange(w, front));
      hide Watching; hide Exec; hide Next; hide Enabled; hide ClientsChange;
    }
  }

  /** Over every interleaving, the rest of a closing can raise exactly if the clients have changed
      since it started; if it does not raise it drops all clients, and if it does it drops none. */
  lemma ClosingRaisesExactly(w: World, k: CloseId, steps: seq<Step>)
    requires k !in w.closes && Exec(Next(w, CloseStart(k)), steps).1
    requires forall s | s in steps :: !(s.CloseFinish? && s.k == k)
    ensures var start := Next(w, CloseStart(k)); var v := Exec(start, steps).0;
      && Enabled(v, CloseFinish(k, true)) && Next(v, CloseFinish(k, true)).clients == {}
      && (Enabled(v, CloseFinish(k, false)) <==> ClientsChange(start, steps))
      && (Enabled(v, CloseFinish(k, false)) ==> Next(v, CloseFinish(k, false)).clients == v.clients)
  {
    var start := Next(w, CloseStart(k));
    assert Watching(start, k, false);
    RunWatches(start, k, steps);
    hide Exec; hide ClientsChange; hide CancelStored; hide ScheduleAll;
  }
}
