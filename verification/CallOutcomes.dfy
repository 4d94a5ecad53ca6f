/** What becomes of a call, by the dispatcher's reply: what it emits, what it audits, and whether it
    keeps its profile. */
module CallOutcomes {
  import opened Options
  import opened Fleet
  import opened Tasks
  import opened Executor

  // ---- routing ----

  /** A call that is not dispatched leaves nothing behind but its refusal. A dispatched one runs
      where routing sent it, remotely exactly if that node is not the local one, and only then it
      is submitted and in progress. */
  lemma BeginExactly(w: World, id: CallId, i: Intent)
    requires Distinct(w.reg) && TraceExact(w, id) && id !in w.calls
    ensures var d := RouteSpec(w.reg, w.busy, w.localNode, i); var v := Next(w, BeginStep(id, i));
      if d.status == Dispatched then
        && id in v.calls && v.calls[id].Running?
        && v.calls[id].profile == d.profileName && v.calls[id].node == d.nodeAddress
        && v.calls[id].remote == (d.nodeAddress != w.localNode) && v.calls[id].target == i.targetNode
        && v.busy == w.busy + {d.profileName} && Of(v.events, id) == []
        && Of(v.audit, id) == [TaskSubmitted, TaskInProgress(d.profileName, d.nodeAddress != w.localNode)]
      else v == w.(calls := w.calls[id := Refused(d.reason)])
  {
    StepKeepsTrace(w, BeginStep(id, i), id);
    DispatchedIsSound(w.reg, w.busy, w.localNode, i);
    hide RouteSpec; hide Of; hide Distinct;
  }

  /** The steps that are no call's own: a registration, a change of the connected peers, a release. */
  lemma OtherStepsExactly(w: World, s: Step)
    requires s.Register? || s.Clients? || s.OrchestratorRelease?
    ensures var v := Next(w, s);
      && v == w.(reg := v.reg, clients := v.clients, busy := v.busy)
      && v.clients == (if s.Clients? then s.connected else w.clients)
      && v.busy == (if s.OrchestratorRelease? then w.busy - {s.profile} else w.busy)
      && (forall n :: Get(v.reg, n) == if s.Register? && n == s.cap.profileName then Some(s.cap) else Get(w.reg, n))
  {
    if s.Register? { PutFacts(w.reg, s.cap); }
    hide Get; hide Put;
  }

  // ---- the reply ----

  /** The dispatcher's reply is the reply of the call: of a local one, and of a remote one that
      has a mesh client and found its peer. */
  lemma ReplyReachesCall(w: World, id: CallId, reply: Reply)
    requires id in w.calls && w.calls[id].Running?
    requires w.calls[id].remote ==> w.hasMesh && w.calls[id].peer.Some?
    ensures var v := Next(w, ReturnStep(id, reply, true));
      v.calls[id] == Ending(w.calls[id].profile, w.calls[id].remote, reply)
  {
  }

  /** A remote call without a mesh client raises, and one without a peer fails, whatever the
      dispatcher would have replied; the texts say why. */
  lemma UnreachedIsTold(w: World, id: CallId, reply: Reply)
    requires id in w.calls && w.calls[id].Running? && w.calls[id].remote && (!w.hasMesh || w.calls[id].peer.None?)
    ensures var v := Next(w, ReturnStep(id, reply, true)); v.calls[id].Ending? && (var got := v.calls[id].reply;
      if !w.hasMesh then got == Raised("Remote dispatch required but no MeshPeerClient configured")
      else
        && got.Returned? && got.result.status == Failed && got.result.data.None?
        && got.result.error == Some(match w.calls[id].target
                                    case None => "Peer 'None' not connected"
                                    case Some(name) => "Peer '" + name + "' not connected"))
  {
    assert "Peer '" + "None" + "' not connected" == "Peer 'None' not connected";
  }

  /** A call whose event cannot be queued ends there and emits nothing, whatever the reply. */
  lemma UnqueuedIsLost(w: World, id: CallId, reply: Reply)
    requires id in w.calls && w.calls[id].Running?
    ensures var v := Next(w, ReturnStep(id, reply, false));
      && v == w.(calls := w.calls[id := v.calls[id]])
      && v.calls[id] == Lost(Some((w.calls[id].profile, w.calls[id].remote)))
  {
  }

  // ---- what it emits and audits ----

  /** The text of a result that is completed: its answer, or else its data, or else a fixed text. */
  predicate Completes(r: TaskResult, text: Wording) {
    match r.data
    case None => text == TaskCompletedText
    case Some(data) =>
      && ("answer" in data && data["answer"] != "" ==> text == Answer(data["answer"]))
      && ("answer" in data && data["answer"] == "" ==> text == TaskCompletedText)
      && ("answer" !in data ==> text == if data == map[] then TaskCompletedText else DataText(data))
  }

  /** The one event that answers this reply. */
  predicate Answers(reply: Reply, e: Event) {
    match reply
    case Raised(error) => e == MessageEvent(ExecutionError(error))
    case Returned(r) =>
      if r.status == InputRequired then e == InputRequiredEvent
      else if r.status == Completed then e.MessageEvent? && Completes(r, e.text)
      else
        && (r.error.Some? && r.error.value != "" ==> e == MessageEvent(ErrorText(r.error.value)))
        && (r.error.None? || r.error.value == "" ==> e == MessageEvent(StatusText(r.status)))
  }

  /** The audit calls after the event. */
  predicate Closes(reply: Reply, hasOrchestrator: bool, a: seq<Audit>) {
    match reply
    case Raised(error) => a == [TaskFailed(ErrorText(error), None)]
    case Returned(r) =>
      if r.status == InputRequired then
        a == if hasOrchestrator then [WaitingForInput, OrchestratorRecruit] else [WaitingForInput]
      else if r.status == Completed then a == [MessageSent, Audit.TaskCompleted]
      else a == [MessageSent, TaskFailed(ErrorText(if r.error.Some? then r.error.value else ""), Some(r.status))]
  }

  /** A call with this reply has emitted the event that answers it, and once it is closed it has
      audited as much; it is parked exactly if the reply asks for input. */
  predicate Reported(w: World, id: CallId, profile: string, remote: bool, reply: Reply) {
    && id in w.calls
    && |Of(w.events, id)| == 1 && Answers(reply, Of(w.events, id)[0])
    && |Of(w.audit, id)| >= 2 && Of(w.audit, id)[..2] == [TaskSubmitted, TaskInProgress(profile, remote)]
    && (var rest := Of(w.audit, id)[2..];
        match w.calls[id]
        case Ending(p, m, got) => p == profile && m == remote && got == reply && rest == []
        case Parked(p, m, got) =>
          p == profile && m == remote && got == reply && Closes(reply, w.hasOrchestrator, rest)
          && reply.Returned? && reply.result.status == InputRequired
        case Released(p, m, got) =>
          p == profile && m == remote && got == reply && Closes(reply, w.hasOrchestrator, rest)
          && !(reply.Returned? && reply.result.status == InputRequired)
        case _ => false)
  }

  lemma EventAnswers(reply: Reply)
    ensures Answers(reply, EventFor(reply))
  {
  }

  lemma AuditCloses(reply: Reply, hasOrchestrator: bool)
    ensures Closes(reply, hasOrchestrator, ClosingAudit(reply, hasOrchestrator))
  {
  }

  /** So whenever the logs follow the phases. */
  lemma TracedIsReported(w: World, id: CallId)
    requires TraceExact(w, id) && id in w.calls
    requires w.calls[id].Ending? || w.calls[id].Parked? || w.calls[id].Released?
    ensures var ph := w.calls[id]; Reported(w, id, ph.profile, ph.remote, ph.reply)
  {
    var ph := w.calls[id];
    EventAnswers(ph.reply);
    AuditCloses(ph.reply, w.hasOrchestrator);
    hide Of; hide EventFor; hide ClosingAudit; hide Answers; hide Closes;
    assert Of(w.audit, id)[..2] == [TaskSubmitted, TaskInProgress(ph.profile, ph.remote)];
  }

  /** A call that is over keeps its reply. */
  lemma ReplyStays(w: World, s: Step, id: CallId)
    requires Enabled(w, s) && id in w.calls && (w.calls[id].Ending? || w.calls[id].Parked? || w.calls[id].Released?)
    ensures var v := Next(w, s);
      && id in v.calls && (v.calls[id].Ending? || v.calls[id].Parked? || v.calls[id].Released?)
      && v.calls[id].profile == w.calls[id].profile && v.calls[id].remote == w.calls[id].remote
      && v.calls[id].reply == w.calls[id].reply
  {
    hide RouteSpec; hide EventFor; hide ClosingAudit; hide Put; hide Settle; hide Parks;
  }

  lemma {:induction false} ReplyStaysInRuns(w: World, steps: seq<Step>, id: CallId)
    requires id in w.calls && (w.calls[id].Ending? || w.calls[id].Parked? || w.calls[id].Released?)
    requires Exec(w, steps).Some?
    ensures var v := Exec(w, steps).value;
      && id in v.calls && (v.calls[id].Ending? || v.calls[id].Parked? || v.calls[id].Released?)
      && v.calls[id].profile == w.calls[id].profile && v.calls[id].remote == w.calls[id].remote
      && v.calls[id].reply == w.calls[id].reply
    decreases |steps|
  {
    if steps != [] {
      ReplyStays(w, steps[0], id);
      hide Next;
      ReplyStaysInRuns(Next(w, steps[0]), steps[1..], id);
    }
  }

  /** Over every interleaving after the dispatcher has replied to a call that reached it, the call
      reports exactly that reply. */
  lemma ReplyIsReported(w: World, id: CallId, reply: Reply, steps: seq<Step>)
    requires TraceExact(w, id) && id in w.calls && w.calls[id].Running?
    requires w.calls[id].remote ==> w.hasMesh && w.calls[id].peer.Some?
    requires Exec(Next(w, ReturnStep(id, reply, true)), steps).Some?
    ensures var v := Exec(Next(w, ReturnStep(id, reply, true)), steps).value;
      Reported(v, id, w.calls[id].profile, w.calls[id].remote, reply)
  {
    var s := ReturnStep(id, reply, true);
    var t := Next(w, s);
    ReplyReachesCall(w, id, reply);
    assert Enabled(w, s);
    hide *;
    StepKeepsTrace(w, s, id);
    TracesOverRuns(t, steps, id);
    ReplyStaysInRuns(t, steps, id);
    TracedIsReported(Exec(t, steps).value, id);
  }

  /** Over every interleaving, a call that was not routed says why, and is audited as a failure for
      that reason. */
  lemma RefusalIsReported(w: World, id: CallId)
    requires TraceExact(w, id) && id in w.calls
    ensures w.calls[id].Replied? || w.calls[id].NotRouted? ==>
              Of(w.events, id) == [MessageEvent(NoRouteText(w.calls[id].reason))]
    ensures w.calls[id].NotRouted? ==>
              Of(w.audit, id) == [TaskSubmitted, TaskFailed(NoRouteText(w.calls[id].reason), None)]
    ensures w.calls[id].Refused? || w.calls[id].Replied? ==> Of(w.audit, id) == []
  {
    hide Of;
  }

  /** A refused call says why it was refused. */
  lemma RefusalSteps(w: World, id: CallId, reply: Reply)
    requires id in w.calls
    ensures w.calls[id].Refused? ==>
              Next(w, ReturnStep(id, reply, true)).calls == w.calls[id := Replied(w.calls[id].reason)]
    ensures w.calls[id].Replied? ==> Next(w, CloseStep(id)).calls == w.calls[id := NotRouted(w.calls[id].reason)]
  {
  }

  /** Closing frees the profile exactly if the reply does not ask for input. */
  lemma CloseFrees(w: World, id: CallId)
    requires id in w.calls && w.calls[id].Ending?
    ensures var ph, v := w.calls[id], Next(w, CloseStep(id));
      if ph.reply.Returned? && ph.reply.result.status == InputRequired then
        v.busy == w.busy && v.calls[id] == Parked(ph.profile, ph.remote, ph.reply)
      else v.busy == w.busy - {ph.profile} && v.calls[id] == Released(ph.profile, ph.remote, ph.reply)
  {
  }
}
