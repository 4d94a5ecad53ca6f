/** The executor: concurrent calls that route, dispatch, report and release.

    A call can be interrupted wherever it waits, so it is cut there: `Begin` routes and looks
    up the peer, `Return` takes the dispatcher's reply and puts the event on the queue, and
    `Close` makes the audit calls and releases the profile. Between these steps any number of
    other calls, registrations and peer connections may come. Putting an event on the queue
    may fail, which ends the call at once. The audit trace holds the calls to the audit log;
    whether such a call writes its line is up to the log, whose errors are swallowed. */
module Executor {
  import opened Options
  import opened Fleet
  import opened Tasks

  type CallId = nat

  datatype Wording =
    | NoRouteText(reason: Reason)
    | ExecutionError(error: string)
    | Answer(text: string)
    | DataText(data: Payload)
    | TaskCompletedText
    | ErrorText(error: string)
    | StatusText(status: Status)

  datatype Event = MessageEvent(text: Wording) | InputRequiredEvent

  datatype Audit =
    | TaskSubmitted
    | TaskInProgress(profile: string, remote: bool)
    | WaitingForInput
    | OrchestratorRecruit
    | MessageSent
    | TaskCompleted
    | TaskFailed(error: Wording, status: Option<Status>)

  datatype Phase =
    | Refused(reason: Reason)
    | Replied(reason: Reason)
    | Running(profile: string, node: string, remote: bool, target: Option<string>, peer: Option<string>)
    | Ending(profile: string, remote: bool, reply: Reply)
    | Parked(profile: string, remote: bool, reply: Reply)
    | NotRouted(reason: Reason)
    | Released(profile: string, remote: bool, reply: Reply)
    | Lost(held: Option<(string, bool)>)
  {
    /** The profile slot a call occupies. */
    function Slot(): Option<string> {
      match this
      case Running(p, _, _, _, _) => Some(p)
      case Ending(p, _, _) => Some(p)
      case Parked(p, _, _) => Some(p)
      case Lost(h) => if h.Some? then Some(h.value.0) else None
      case _ => None
    }
  }

  datatype World = World(
    reg: Registry, busy: set<string>, localNode: string,
    peers: set<string>, clients: set<string>, hasMesh: bool, hasOrchestrator: bool,
    calls: map<CallId, Phase>,
    events: seq<(CallId, Event)>, audit: seq<(CallId, Audit)>, contacts: seq<(CallId, string)>)

  // ---- the parts of one call ----

  /** The peer a remote dispatch talks to: the target node, if it is connected and configured. */
  function PeerFor(clients: set<string>, peers: set<string>, target: Option<string>): Option<string> {
    if target.Some? && target.value in clients && target.value in peers then target else None
  }

  /** What the dispatch ends with: a remote dispatch without a client raises, and one that
      finds no peer reports a failure without having talked to anyone. */
  function Settle(hasMesh: bool, ph: Phase, reply: Reply): Reply
    requires ph.Running?
  {
    if ph.remote && !hasMesh then Raised("Remote dispatch required but no MeshPeerClient configured")
    else if ph.remote && ph.peer.None? then Returned(NotConnected(ph.target))
    else reply
  }

  /** The text names the target; a missing one is spelled as the host language does. */
  function NotConnected(target: Option<string>): TaskResult {
    var name := if target.Some? then target.value else "None";
    Result(Failed, None, Some("Peer '" + name + "' not connected"), false, None, [], [], None)
  }

  function AnswerText(r: TaskResult): Wording {
    if r.data.Some? && "answer" in r.data.value then
      if r.data.value["answer"] != "" then Answer(r.data.value["answer"]) else TaskCompletedText
    else if r.data.Some? && r.data.value != map[] then DataText(r.data.value)
    else TaskCompletedText
  }

  function FailureText(r: TaskResult): Wording {
    if r.error.Some? && r.error.value != "" then ErrorText(r.error.value) else StatusText(r.status)
  }

  function EventFor(reply: Reply): Event {
    match reply
    case Raised(e) => MessageEvent(ExecutionError(e))
    case Returned(r) =>
      if r.status == InputRequired then InputRequiredEvent
      else if r.status == Completed then MessageEvent(AnswerText(r))
      else MessageEvent(FailureText(r))
  }

  function ClosingAudit(reply: Reply, hasOrchestrator: bool): seq<Audit> {
    match reply
    case Raised(e) => [TaskFailed(ErrorText(e), None)]
    case Returned(r) =>
      if r.status == InputRequired then [WaitingForInput] + (if hasOrchestrator then [OrchestratorRecruit] else [])
      else if r.status == Completed then [MessageSent, Audit.TaskCompleted]
      else [MessageSent, TaskFailed(ErrorText(if r.error.Some? then r.error.value else ""), Some(r.status))]
  }

  predicate Parks(reply: Reply) {
    reply.Returned? && reply.result.status == InputRequired
  }

  function Tag<T>(id: CallId, items: seq<T>): (r: seq<(CallId, T)>)
    ensures |r| == |items| && forall k | 0 <= k < |r| :: r[k] == (id, items[k])
  {
    seq(|items|, k requires 0 <= k < |items| => (id, items[k]))
  }

  // ---- the steps ----

  function Begin(w: World, id: CallId, i: Intent): World {
    var d := RouteSpec(w.reg, w.busy, w.localNode, i);
    if d.status != Dispatched then w.(calls := w.calls[id := Refused(d.reason)])
    else
      var remote := IsRemote(d.endpoint);
      var peer := if remote && w.hasMesh then PeerFor(w.clients, w.peers, i.targetNode) else None;
      w.(busy := w.busy + {d.profileName},
         calls := w.calls[id := Running(d.profileName, d.nodeAddress, remote, i.targetNode, peer)],
         audit := w.audit + Tag(id, [TaskSubmitted, TaskInProgress(d.profileName, remote)]),
         contacts := w.contacts + if peer.Some? then [(id, peer.value)] else [])
  }

  function Return(w: World, id: CallId, reply: Reply, enqueued: bool): World
    requires id in w.calls && (w.calls[id].Refused? || w.calls[id].Running?)
  {
    var ph := w.calls[id];
    if !enqueued then
      w.(calls := w.calls[id := Lost(if ph.Running? then Some((ph.profile, ph.remote)) else None)])
    else if ph.Refused? then
      w.(calls := w.calls[id := Replied(ph.reason)], events := w.events + [(id, MessageEvent(NoRouteText(ph.reason)))])
    else
      var r := Settle(w.hasMesh, ph, reply);
      w.(calls := w.calls[id := Ending(ph.profile, ph.remote, r)], events := w.events + [(id, EventFor(r))])
  }

  function Close(w: World, id: CallId): World
    requires id in w.calls && (w.calls[id].Replied? || w.calls[id].Ending?)
  {
    var ph := w.calls[id];
    if ph.Replied? then
      w.(calls := w.calls[id := NotRouted(ph.reason)],
         audit := w.audit + Tag(id, [TaskSubmitted, TaskFailed(NoRouteText(ph.reason), None)]))
    else
      var w' := w.(audit := w.audit + Tag(id, ClosingAudit(ph.reply, w.hasOrchestrator)));
      if Parks(ph.reply) then w'.(calls := w.calls[id := Parked(ph.profile, ph.remote, ph.reply)])
      else w'.(calls := w.calls[id := Released(ph.profile, ph.remote, ph.reply)], busy := w.busy - {ph.profile})
  }

  datatype Step =
    | BeginStep(id: CallId, i: Intent)
    | ReturnStep(id: CallId, reply: Reply, enqueued: bool)
    | CloseStep(id: CallId)
    | Register(cap: Capability)
    | Clients(connected: set<string>)
    | OrchestratorRelease(profile: string)

  predicate Enabled(w: World, s: Step) {
    match s
    case BeginStep(id, _) => id !in w.calls
    case ReturnStep(id, _, _) => id in w.calls && (w.calls[id].Refused? || w.calls[id].Running?)
    case CloseStep(id) => id in w.calls && (w.calls[id].Replied? || w.calls[id].Ending?)
    case _ => true
  }

  function Next(w: World, s: Step): World
    requires Enabled(w, s)
  {
    match s
    case BeginStep(id, i) => Begin(w, id, i)
    case ReturnStep(id, reply, enqueued) => Return(w, id, reply, enqueued)
    case CloseStep(id) => Close(w, id)
    case Register(cap) => w.(reg := Put(w.reg, cap))
    case Clients(connected) => w.(clients := connected)
    case OrchestratorRelease(p) => w.(busy := w.busy - {p})
  }

  /** A run of enabled steps; `None` if one is not enabled. */
  function Exec(w: World, steps: seq<Step>): Option<World>
    decreases |steps|
  {
    if steps == [] then Some(w)
    else if !Enabled(w, steps[0]) then None
    else Exec(Next(w, steps[0]), steps[1..])
  }

  // ---- the executor object ----

  class HermesExecutor {
    const fc: FleetController
    const peers: set<string>
    const hasMesh: bool
    const hasOrchestrator: bool
    var clients: set<string>
    var calls: map<CallId, Phase>
    var events: seq<(CallId, Event)>
    var audit: seq<(CallId, Audit)>
    var contacts: seq<(CallId, string)>

    function View(): World
      reads this, fc
    {
      World(fc.capabilities, fc.busy, fc.localNode, peers, clients, hasMesh, hasOrchestrator,
            calls, events, audit, contacts)
    }

    constructor (fc: FleetController, peers: set<string>, hasMesh: bool, hasOrchestrator: bool)
      ensures this.fc == fc
      ensures View() == World(fc.capabilities, fc.busy, fc.localNode, peers, {}, hasMesh, hasOrchestrator,
                              map[], [], [], [])
    {
      this.fc, this.peers, this.hasMesh, this.hasOrchestrator := fc, peers, hasMesh, hasOrchestrator;
      clients, calls, events, audit, contacts := {}, map[], [], [], [];
    }

    /** From the request to the point where the dispatch is waited for. */
    method BeginCall(id: CallId, i: Intent)
      requires fc.Valid() && id !in calls
      modifies this, fc`busy
      ensures View() == Begin(old(View()), id, i)
    {
      var d := fc.Route(i);
      if d.status != Dispatched {
        calls := calls[id := Refused(d.reason)];
        return;
      }
      var remote := IsRemote(d.endpoint);
      audit := audit + Tag(id, [TaskSubmitted, TaskInProgress(d.profileName, remote)]);
      var peer := None;
      if remote && hasMesh {
        peer := PeerFor(clients, peers, i.targetNode);
      }
      if peer.Some? {
        contacts := contacts + [(id, peer.value)];
      }
      calls := calls[id := Running(d.profileName, d.nodeAddress, remote, i.targetNode, peer)];
      assert contacts == old(contacts) + if peer.Some? then [(id, peer.value)] else [];
    }

    /** The dispatch is over, and its event goes to the queue. */
    method ReturnCall(id: CallId, reply: Reply, enqueued: bool)
      requires id in calls && (calls[id].Refused? || calls[id].Running?)
      modifies this
      ensures View() == Return(old(View()), id, reply, enqueued)
    {
      var ph := calls[id];
      if !enqueued {
        calls := calls[id := Lost(if ph.Running? then Some((ph.profile, ph.remote)) else None)];
        return;
      }
      if ph.Refused? {
        events := events + [(id, MessageEvent(NoRouteText(ph.reason)))];
        calls := calls[id := Replied(ph.reason)];
        return;
      }
      var r := Settle(hasMesh, ph, reply);
      events := events + [(id, EventFor(r))];
      calls := calls[id := Ending(ph.profile, ph.remote, r)];
    }

    /** The audit calls after the event, and the release. */
    method CloseCall(id: CallId)
      requires id in calls && (calls[id].Replied? || calls[id].Ending?)
      modifies this, fc`busy
      ensures View() == Close(old(View()), id)
    {
      var ph := calls[id];
      if ph.Replied? {
        audit := audit + Tag(id, [TaskSubmitted, TaskFailed(NoRouteText(ph.reason), None)]);
        calls := calls[id := NotRouted(ph.reason)];
        return;
      }
      audit := audit + Tag(id, ClosingAudit(ph.reply, hasOrchestrator));
      if Parks(ph.reply) {
        calls := calls[id := Parked(ph.profile, ph.remote, ph.reply)];
      } else {
        calls := calls[id := Released(ph.profile, ph.remote, ph.reply)];
        fc.Release(ph.profile);
      }
    }
  }

  // ---- slot safety ----

  predicate Holds(w: World, id: CallId) {
    id in w.calls && w.calls[id].Slot().Some?
  }

  function SlotOf(w: World, id: CallId): string
    requires Holds(w, id)
  {
    w.calls[id].Slot().value
  }

  /** The busy set is exactly the set of profiles held by calls, and no two calls hold one. */
  ghost predicate SlotsExact(w: World) {
    && (forall id | Holds(w, id) :: SlotOf(w, id) in w.busy)
    && (forall p | p in w.busy :: exists id :: Holds(w, id) && SlotOf(w, id) == p)
    && (forall a, b | Holds(w, a) && Holds(w, b) && a != b :: SlotOf(w, a) != SlotOf(w, b))
  }

  ghost predicate Live(w: World, p: string) {
    exists id :: Holds(w, id) && SlotOf(w, id) == p
  }

  lemma RoutedIsFree(w: World, i: Intent)
    ensures RouteSpec(w.reg, w.busy, w.localNode, i).status == Dispatched ==>
            RouteSpec(w.reg, w.busy, w.localNode, i).profileName !in w.busy
  {
  }

  lemma BeginKeepsSlots(w: World, id: CallId, i: Intent)
    requires SlotsExact(w) && id !in w.calls
    ensures SlotsExact(Begin(w, id, i))
  {
    RoutedIsFree(w, i);
    hide RouteSpec;
    var w' := Begin(w, id, i);
    assert forall a :: a != id ==> (Holds(w', a) <==> Holds(w, a)) && (Holds(w, a) ==> SlotOf(w', a) == SlotOf(w, a));
    forall p | p in w'.busy ensures exists a :: Holds(w', a) && SlotOf(w', a) == p {
      if p in w.busy {
        var a :| Holds(w, a) && SlotOf(w, a) == p;
        assert Holds(w', a) && SlotOf(w', a) == p;
      } else {
        assert Holds(w', id) && SlotOf(w', id) == p;
      }
    }
  }

  /** Steps that keep every call's slot, or drop one together with its profile. */
  lemma MoveKeepsSlots(w: World, w': World, id: CallId)
    requires SlotsExact(w) && id in w.calls && w'.calls.Keys == w.calls.Keys
    requires forall a | a in w.calls && a != id :: w'.calls[a] == w.calls[a]
    requires || (w'.calls[id].Slot() == w.calls[id].Slot() && w'.busy == w.busy)
             || (w'.calls[id].Slot().None? && w.calls[id].Slot().Some?
                 && w'.busy == w.busy - {w.calls[id].Slot().value})
    ensures SlotsExact(w')
  {
    assert forall a :: a != id ==> (Holds(w', a) <==> Holds(w, a)) && (Holds(w, a) ==> SlotOf(w', a) == SlotOf(w, a));
    assert Holds(w', id) ==> Holds(w, id) && SlotOf(w', id) == SlotOf(w, id);
    assert Holds(w, id) ==> SlotOf(w, id) == w.calls[id].Slot().value;
    forall p | p in w'.busy ensures exists a :: Holds(w', a) && SlotOf(w', a) == p {
      var a :| Holds(w, a) && SlotOf(w, a) == p;
      assert Holds(w', a) && SlotOf(w', a) == p;
    }
  }

  /** A release on behalf of an orchestrator record is harmless exactly when no call holds the
      profile it names. */
  lemma StrayReleaseExactly(w: World, p: string)
    requires SlotsExact(w)
    ensures SlotsExact(Next(w, OrchestratorRelease(p))) <==> !Live(w, p)
  {
    var w' := Next(w, OrchestratorRelease(p));
    assert forall a :: (Holds(w', a) <==> Holds(w, a)) && (Holds(w, a) ==> SlotOf(w', a) == SlotOf(w, a));
    if !Live(w, p) {
      forall q | q in w'.busy ensures exists a :: Holds(w', a) && SlotOf(w', a) == q {
        var a :| Holds(w, a) && SlotOf(w, a) == q;
        assert Holds(w', a) && SlotOf(w', a) == q;
      }
    } else {
      var a :| Holds(w, a) && SlotOf(w, a) == p;
      assert Holds(w', a) && SlotOf(w', a) !in w'.busy;
    }
  }

  lemma ReturnKeepsSlots(w: World, s: Step)
    requires SlotsExact(w) && s.ReturnStep? && Enabled(w, s)
    ensures SlotsExact(Next(w, s))
  {
    hide SlotsExact; hide EventFor; hide Settle; hide Begin; hide Close;
    MoveKeepsSlots(w, Next(w, s), s.id);
  }

  lemma CloseKeepsSlots(w: World, s: Step)
    requires SlotsExact(w) && s.CloseStep? && Enabled(w, s)
    ensures SlotsExact(Next(w, s))
  {
    hide SlotsExact; hide ClosingAudit; hide Parks; hide Begin; hide Return;
    MoveKeepsSlots(w, Next(w, s), s.id);
  }

  lemma StepKeepsSlots(w: World, s: Step)
    requires SlotsExact(w) && Enabled(w, s) && (s.OrchestratorRelease? ==> !Live(w, s.profile))
    ensures SlotsExact(Next(w, s))
  {
    hide SlotsExact; hide Begin; hide Return; hide Close; hide Live;
    match s
    case BeginStep(id, i) => BeginKeepsSlots(w, id, i);
    case ReturnStep(_, _, _) => ReturnKeepsSlots(w, s);
    case CloseStep(_) => CloseKeepsSlots(w, s);
    case OrchestratorRelease(p) => StrayReleaseExactly(w, p);
    case _ => SameCallsKeepSlots(w, Next(w, s));
  }

  lemma SameCallsKeepSlots(w: World, w': World)
    requires SlotsExact(w) && w'.calls == w.calls && w'.busy == w.busy
    ensures SlotsExact(w')
  {
    assert forall a :: (Holds(w', a) <==> Holds(w, a)) && (Holds(w, a) ==> SlotOf(w', a) == SlotOf(w, a));
    forall p | p in w'.busy ensures exists a :: Holds(w', a) && SlotOf(w', a) == p {
      var a :| Holds(w, a) && SlotOf(w, a) == p;
      assert Holds(w', a) && SlotOf(w', a) == p;
    }
  }

  /** The orchestrator's records name no profile that a call holds; in the plugin's wiring they
      name none at all. */
  ghost predicate Wired(w: World, steps: seq<Step>)
    decreases |steps|
  {
    steps == [] || !Enabled(w, steps[0]) ||
    ((steps[0].OrchestratorRelease? ==> !Live(w, steps[0].profile)) && Wired(Next(w, steps[0]), steps[1..]))
  }

  /** Slot safety: after any interleaving of any number of calls, registrations and peer
      connections, the busy set is exactly the set of profiles held by calls that are running,
      ending, parked or lost, and these are pairwise distinct. */
  lemma {:induction false} SlotSafety(w: World, steps: seq<Step>)
    requires SlotsExact(w) && Exec(w, steps).Some? && Wired(w, steps)
    ensures SlotsExact(Exec(w, steps).value)
    decreases |steps|
  {
    if steps != [] {
      StepKeepsSlots(w, steps[0]);
      SlotSafety(Next(w, steps[0]), steps[1..]);
    }
  }

  /** A step of a call changes the busy set in three ways only: routing adds the chosen profile,
      closing a call that does not park removes that call's own, and nothing else changes it. */
  lemma SlotChanges(w: World, s: Step)
    requires SlotsExact(w) && Enabled(w, s) && !s.OrchestratorRelease?
    ensures var w' := Next(w, s);
      if s.BeginStep? && w'.calls[s.id].Running? then
        w'.calls[s.id].profile !in w.busy && w'.busy == w.busy + {w'.calls[s.id].profile}
      else if s.CloseStep? && Holds(w, s.id) && !Holds(w', s.id) then
        SlotOf(w, s.id) in w.busy && w'.busy == w.busy - {SlotOf(w, s.id)} && !Parks(w.calls[s.id].reply)
      else w'.busy == w.busy
  {
    if s.BeginStep? { RoutedIsFree(w, s.i); hide RouteSpec; }
  }

  /** A parked call keeps its profile for good: in every continuation the call stays parked, the
      profile stays busy, and no intent is ever dispatched to it. */
  lemma {:induction false} ParkedForever(w: World, steps: seq<Step>, id: CallId, i: Intent)
    requires SlotsExact(w) && Exec(w, steps).Some? && Wired(w, steps)
    requires id in w.calls && w.calls[id].Parked?
    ensures var v := Exec(w, steps).value;
      && id in v.calls && v.calls[id] == w.calls[id] && w.calls[id].profile in v.busy
      && (var d := RouteSpec(v.reg, v.busy, v.localNode, i);
          d.status == Dispatched ==> d.profileName != w.calls[id].profile)
    decreases |steps|
  {
    if steps == [] {
      assert Holds(w, id) && SlotOf(w, id) == w.calls[id].profile;
      RoutedIsFree(w, i);
    } else {
      StepKeepsSlots(w, steps[0]);
      ParkedStays(w, steps[0], id);
      hide SlotsExact; hide RouteSpec; hide Next;
      ParkedForever(Next(w, steps[0]), steps[1..], id, i);
    }
  }

  lemma ParkedStays(w: World, s: Step, id: CallId)
    requires Enabled(w, s) && id in w.calls && w.calls[id].Parked?
    ensures id in Next(w, s).calls && Next(w, s).calls[id] == w.calls[id]
  {
    hide RouteSpec; hide EventFor; hide ClosingAudit; hide Put; hide Settle;
  }

  // ---- remote dispatch reaches the right peer or nobody ----

  /** Whenever routing takes the remote branch, a peer is contacted exactly when the intent
      names a target node that is connected and configured, and then that peer is the node that
      owns the chosen profile. Peer names are not empty. */
  lemma NoMisdelivery(w: World, id: CallId, i: Intent)
    requires Distinct(w.reg) && "" !in w.peers && id !in w.calls
    ensures var w' := Begin(w, id, i);
      w'.calls[id].Running? && w'.calls[id].remote ==>
        && var ph := w'.calls[id];
        && Get(w.reg, ph.profile).Some? && Get(w.reg, ph.profile).value.nodeId == ph.node != w.localNode
        && (ph.peer.Some? <==>
              w.hasMesh && Given(i.targetNode) && i.targetNode.value in w.clients && i.targetNode.value in w.peers)
        && (ph.peer.Some? ==> ph.peer.value == ph.node && w'.contacts == w.contacts + [(id, ph.node)])
        && (ph.peer.None? ==> w'.contacts == w.contacts)
  {
    DispatchedIsSound(w.reg, w.busy, w.localNode, i);
    hide RouteSpec;
  }

  // ---- what each call leaves behind ----

  function Of<T>(log: seq<(CallId, T)>, id: CallId): seq<T> {
    if log == [] then []
    else
      var rest, last := Of(log[..|log| - 1], id), log[|log| - 1];
      if last.0 == id then rest + [last.1] else rest
  }

  lemma {:induction false} OfAppend<T>(log: seq<(CallId, T)>, more: seq<(CallId, T)>, id: CallId)
    ensures Of(log + more, id) == Of(log, id) + Of(more, id)
  {
    if more == [] {
      assert log + more == log;
    } else {
      OfAppend(log, more[..|more| - 1], id);
      assert (log + more)[..|log + more| - 1] == log + more[..|more| - 1];
    }
  }

  lemma {:induction false} OfTag<T>(id: CallId, items: seq<T>, other: CallId)
    ensures Of(Tag(id, items), other) == if other == id then items else []
  {
    if items != [] {
      var front := items[..|items| - 1];
      OfTag(id, front, other);
      assert Tag(id, items)[..|items| - 1] == Tag(id, front);
      assert items == front + [items[|items| - 1]];
    }
  }

  /** The events a call has put on the queue by the time it is in this phase. */
  function EventsOf(ph: Phase): seq<Event> {
    match ph
    case Refused(_) => []
    case Running(_, _, _, _, _) => []
    case Lost(_) => []
    case Replied(r) => [MessageEvent(NoRouteText(r))]
    case NotRouted(r) => [MessageEvent(NoRouteText(r))]
    case Ending(_, _, reply) => [EventFor(reply)]
    case Parked(_, _, reply) => [EventFor(reply)]
    case Released(_, _, reply) => [EventFor(reply)]
  }

  /** The audit calls a call has made by the time it is in this phase. */
  function AuditOf(ph: Phase, hasOrchestrator: bool): seq<Audit> {
    match ph
    case Refused(_) => []
    case Replied(_) => []
    case NotRouted(r) => [TaskSubmitted, TaskFailed(NoRouteText(r), None)]
    case Running(p, _, remote, _, _) => [TaskSubmitted, TaskInProgress(p, remote)]
    case Ending(p, remote, _) => [TaskSubmitted, TaskInProgress(p, remote)]
    case Parked(p, remote, reply) => [TaskSubmitted, TaskInProgress(p, remote)] + ClosingAudit(reply, hasOrchestrator)
    case Released(p, remote, reply) => [TaskSubmitted, TaskInProgress(p, remote)] + ClosingAudit(reply, hasOrchestrator)
    case Lost(h) => if h.Some? then [TaskSubmitted, TaskInProgress(h.value.0, h.value.1)] else []
  }

  /** What a step of call `id` appends to the two logs. */
  function Appended(w: World, s: Step): (seq<Event>, seq<Audit>)
    requires Enabled(w, s)
  {
    match s
    case BeginStep(id, i) =>
      var ph := Begin(w, id, i).calls[id];
      ([], if ph.Running? then [TaskSubmitted, TaskInProgress(ph.profile, ph.remote)] else [])
    case ReturnStep(id, reply, enqueued) => (EventsOf(Return(w, id, reply, enqueued).calls[id]), [])
    case CloseStep(id) =>
      ([], if w.calls[id].Replied? then [TaskSubmitted, TaskFailed(NoRouteText(w.calls[id].reason), None)]
           else ClosingAudit(w.calls[id].reply, w.hasOrchestrator))
    case _ => ([], [])
  }

  lemma BeginLogs(w: World, id: CallId, i: Intent)
    ensures var (e, a) := Appended(w.(calls := w.calls - {id}), BeginStep(id, i)); var w' := Begin(w, id, i);
      w'.events == w.events + Tag(id, e) && w'.audit == w.audit + Tag(id, a)
  {
    hide RouteSpec;
    assert w.events + [] == w.events && w.audit + [] == w.audit;
  }

  lemma ReturnLogs(w: World, id: CallId, reply: Reply, enqueued: bool)
    requires Enabled(w, ReturnStep(id, reply, enqueued))
    ensures var (e, a) := Appended(w, ReturnStep(id, reply, enqueued)); var w' := Return(w, id, reply, enqueued);
      w'.events == w.events + Tag(id, e) && w'.audit == w.audit + Tag(id, a)
  {
    hide EventFor;
    assert w.events + [] == w.events && w.audit + [] == w.audit;
    var ph := Return(w, id, reply, enqueued).calls[id];
    assert ph.Ending? ==> Tag(id, EventsOf(ph)) == [(id, EventFor(ph.reply))];
    assert ph.Replied? ==> Tag(id, EventsOf(ph)) == [(id, MessageEvent(NoRouteText(ph.reason)))];
  }

  lemma CloseLogs(w: World, id: CallId)
    requires Enabled(w, CloseStep(id))
    ensures var (e, a) := Appended(w, CloseStep(id)); var w' := Close(w, id);
      w'.events == w.events + Tag(id, e) && w'.audit == w.audit + Tag(id, a)
  {
    hide ClosingAudit;
    assert w.events + [] == w.events;
  }

  /** How a call's step extends both logs, as every call sees it. */
  lemma LogsGrow(w: World, s: Step, id: CallId)
    requires Enabled(w, s) && (s.BeginStep? || s.ReturnStep? || s.CloseStep?)
    ensures Of(Next(w, s).events, id) == Of(w.events, id) + if id == s.id then Appended(w, s).0 else []
    ensures Of(Next(w, s).audit, id) == Of(w.audit, id) + if id == s.id then Appended(w, s).1 else []
  {
    hide Of; hide Tag; hide Appended; hide Begin; hide Return; hide Close;
    match s {
      case BeginStep(c, i) => assert w.calls - {c} == w.calls; BeginLogs(w, c, i);
      case ReturnStep(c, reply, enqueued) => ReturnLogs(w, c, reply, enqueued);
      case CloseStep(c) => CloseLogs(w, c);
    }
    var (e, a) := Appended(w, s);
    OfAppend(w.events, Tag(s.id, e), id);
    OfAppend(w.audit, Tag(s.id, a), id);
    OfTag(s.id, e, id);
    OfTag(s.id, a, id);
  }

  function EventsAt(w: World, id: CallId): seq<Event> {
    if id in w.calls then EventsOf(w.calls[id]) else []
  }

  function AuditAt(w: World, id: CallId): seq<Audit> {
    if id in w.calls then AuditOf(w.calls[id], w.hasOrchestrator) else []
  }

  /** What the phase of a call says of its logs grows by what the step appends. */
  lemma PhasesGrow(w: World, s: Step)
    requires Enabled(w, s) && (s.BeginStep? || s.ReturnStep? || s.CloseStep?)
    ensures EventsAt(Next(w, s), s.id) == EventsAt(w, s.id) + Appended(w, s).0
    ensures AuditAt(Next(w, s), s.id) == AuditAt(w, s.id) + Appended(w, s).1
  {
    hide Next; hide Appended; hide EventsAt; hide AuditAt;
    match s
    case BeginStep(_, _) => BeginPhases(w, s);
    case ReturnStep(_, _, _) => ReturnPhases(w, s);
    case CloseStep(_) => ClosePhases(w, s);
  }

  lemma BeginPhases(w: World, s: Step)
    requires s.BeginStep? && Enabled(w, s)
    ensures EventsAt(Next(w, s), s.id) == EventsAt(w, s.id) + Appended(w, s).0
    ensures AuditAt(Next(w, s), s.id) == AuditAt(w, s.id) + Appended(w, s).1
  {
    hide RouteSpec; hide EventFor; hide ClosingAudit; hide Return; hide Close;
  }

  lemma ReturnPhases(w: World, s: Step)
    requires s.ReturnStep? && Enabled(w, s)
    ensures EventsAt(Next(w, s), s.id) == EventsAt(w, s.id) + Appended(w, s).0
    ensures AuditAt(Next(w, s), s.id) == AuditAt(w, s.id) + Appended(w, s).1
  {
    hide RouteSpec; hide EventFor; hide ClosingAudit; hide Begin; hide Close; hide Settle;
  }

  lemma ClosePhases(w: World, s: Step)
    requires s.CloseStep? && Enabled(w, s)
    ensures EventsAt(Next(w, s), s.id) == EventsAt(w, s.id) + Appended(w, s).0
    ensures AuditAt(Next(w, s), s.id) == AuditAt(w, s.id) + Appended(w, s).1
  {
    hide RouteSpec; hide EventFor; hide ClosingAudit; hide Begin; hide Return; hide Parks;
  }

  lemma OthersStay(w: World, s: Step, id: CallId)
    requires Enabled(w, s) && (s.BeginStep? || s.ReturnStep? || s.CloseStep? ==> s.id != id)
    ensures id in Next(w, s).calls <==> id in w.calls
    ensures id in w.calls ==> Next(w, s).calls[id] == w.calls[id]
    ensures Next(w, s).hasOrchestrator == w.hasOrchestrator
  {
    hide RouteSpec; hide EventFor; hide ClosingAudit;
  }

  predicate TraceExact(w: World, id: CallId) {
    && Of(w.events, id) == EventsAt(w, id)
    && Of(w.audit, id) == AuditAt(w, id)
    && (id in w.calls && w.calls[id].Parked? ==> Parks(w.calls[id].reply))
    && (id in w.calls && w.calls[id].Released? ==> !Parks(w.calls[id].reply))
  }

  lemma StepKeepsTrace(w: World, s: Step, id: CallId)
    requires TraceExact(w, id) && Enabled(w, s)
    ensures TraceExact(Next(w, s), id)
  {
    if s.BeginStep? || s.ReturnStep? || s.CloseStep? {
      LogsGrow(w, s, id);
      if id == s.id {
        PhasesGrow(w, s);
        ParksOnlyOnInput(w, s);
      } else {
        OthersStay(w, s, id);
      }
      hide Of; hide EventsOf; hide AuditOf; hide Next; hide Appended; hide Parks;
    } else {
      hide Of; hide EventsOf; hide AuditOf; hide Parks;
    }
  }

  lemma ParksOnlyOnInput(w: World, s: Step)
    requires Enabled(w, s) && (s.BeginStep? || s.ReturnStep? || s.CloseStep?)
    ensures var ph := Next(w, s).calls[s.id]; (ph.Parked? ==> Parks(ph.reply)) && (ph.Released? ==> !Parks(ph.reply))
  {
    hide RouteSpec; hide EventFor; hide ClosingAudit; hide Parks;
  }

  /** Over every interleaving, each call has emitted exactly the events and audit calls of its
      own phase, in order, and parks exactly on an input-required result. */
  lemma {:induction false} TracesOverRuns(w: World, steps: seq<Step>, id: CallId)
    requires TraceExact(w, id) && Exec(w, steps).Some?
    ensures TraceExact(Exec(w, steps).value, id)
    decreases |steps|
  {
    if steps != [] {
      StepKeepsTrace(w, steps[0], id);
      TracesOverRuns(Next(w, steps[0]), steps[1..], id);
    }
  }

  /** A call that is over has emitted exactly one event unless its queue failed, and it holds no
      slot exactly when it made no audit call or its last one is a completion or a failure. */
  lemma FinishedCalls(w: World, id: CallId)
    requires TraceExact(w, id) && id in w.calls
    requires w.calls[id].NotRouted? || w.calls[id].Parked? || w.calls[id].Released? || w.calls[id].Lost?
    ensures |Of(w.events, id)| == if w.calls[id].Lost? then 0 else 1
    ensures w.calls[id].Slot().None? <==>
            var a := Of(w.audit, id); a == [] || a[|a| - 1].TaskCompleted? || a[|a| - 1].TaskFailed?
  {
  }

  // ---- whom each call contacted ----

  predicate GotNoAnswer(reply: Reply) {
    reply.Raised? || reply.result.status == Failed
  }

  /** Whether the call was routed to a remote profile. */
  predicate IsRemoteCall(ph: Phase) {
    match ph
    case Running(_, _, remote, _, _) => remote
    case Ending(_, remote, _) => remote
    case Parked(_, remote, _) => remote
    case Released(_, remote, _) => remote
    case Lost(h) => h.Some? && h.value.1
    case _ => false
  }

  /** A call contacts nobody before it is routed and at most the node it was routed to afterwards;
      a local call contacts nobody, and a remote one that contacted nobody ends without answer. */
  predicate ContactFits(ph: Phase, contacts: seq<string>) {
    && (!IsRemoteCall(ph) ==> contacts == [])
    && |contacts| <= 1
    && (ph.Running? ==>
          && contacts == (if ph.peer.Some? then [ph.node] else [])
          && (ph.peer.Some? ==> ph.peer.value == ph.node))
    && (ph.Ending? || ph.Parked? || ph.Released? ==> IsRemoteCall(ph) && contacts == [] ==> GotNoAnswer(ph.reply))
  }

  predicate ContactExact(w: World, id: CallId) {
    if id in w.calls then ContactFits(w.calls[id], Of(w.contacts, id)) else Of(w.contacts, id) == []
  }

  /** Names in the registry are distinct and peers have names. */
  predicate Sane(w: World) {
    Distinct(w.reg) && "" !in w.peers
  }

  lemma BeginContacts(w: World, id: CallId, i: Intent, other: CallId)
    requires Sane(w) && id !in w.calls && Of(w.contacts, id) == []
    ensures var w' := Begin(w, id, i);
      && ContactFits(w'.calls[id], Of(w'.contacts, id))
      && (other != id ==> Of(w'.contacts, other) == Of(w.contacts, other))
  {
    hide *;
    var w' := Begin(w, id, i);
    BeginKeepsOthers(w, id, i, id);
    BeginPeer(w, id, i);
    BeginAddsContact(w, id, i);
    var ph := w'.calls[id];
    var more := if ph.Running? && ph.peer.Some? then [ph.peer.value] else [];
    assert [] + more == more && Of(w.contacts, other) + [] == Of(w.contacts, other);
    AddContacts(w.contacts, id, more, id);
    AddContacts(w.contacts, id, more, other);
    RoutedFits(ph, more);
  }

  /** What routing leaves is the contact of the peer it found, if any. */
  lemma RoutedFits(ph: Phase, contacts: seq<string>)
    requires ph.Refused? || (ph.Running? && (ph.peer.Some? ==> ph.remote && ph.peer.value == ph.node))
    requires contacts == if ph.Running? && ph.peer.Some? then [ph.peer.value] else []
    ensures ContactFits(ph, contacts)
  {
  }

  lemma BeginPeer(w: World, id: CallId, i: Intent)
    requires Sane(w) && id !in w.calls
    ensures var ph := Begin(w, id, i).calls[id]; ph.Running? && ph.peer.Some? ==> ph.peer.value == ph.node
  {
    NoMisdelivery(w, id, i);
    BeginAddsContact(w, id, i);
    hide Begin; hide RouteSpec;
  }

  lemma AddContacts(contacts: seq<(CallId, string)>, id: CallId, more: seq<string>, other: CallId)
    ensures Of(contacts + Tag(id, more), other) == Of(contacts, other) + if other == id then more else []
  {
    OfAppend(contacts, Tag(id, more), other);
    OfTag(id, more, other);
    hide Of; hide Tag;
  }

  lemma BeginAddsContact(w: World, id: CallId, i: Intent)
    ensures var w' := Begin(w, id, i); var ph := w'.calls[id];
      && (ph.Refused? || (ph.Running? && (ph.peer.Some? ==> ph.remote)))
      && w'.contacts == w.contacts + Tag(id, if ph.Running? && ph.peer.Some? then [ph.peer.value] else [])
  {
    hide RouteSpec;
    assert w.contacts + [] == w.contacts;
  }

  /** The later steps of a call contact nobody. */
  lemma ReturnContacts(w: World, s: Step, id: CallId)
    requires s.ReturnStep? && Enabled(w, s) && ContactExact(w, id)
    ensures Next(w, s).contacts == w.contacts && ContactExact(Next(w, s), id)
    ensures id in w.calls ==>
              id in Next(w, s).calls && (IsRemoteCall(w.calls[id]) == IsRemoteCall(Next(w, s).calls[id]))
  {
    hide Of; hide Begin; hide Close; hide EventFor;
  }

  lemma CloseContacts(w: World, s: Step, id: CallId)
    requires s.CloseStep? && Enabled(w, s) && ContactExact(w, id)
    ensures Next(w, s).contacts == w.contacts && ContactExact(Next(w, s), id)
    ensures id in w.calls ==>
              id in Next(w, s).calls && (IsRemoteCall(w.calls[id]) == IsRemoteCall(Next(w, s).calls[id]))
  {
    hide Of; hide Begin; hide Return; hide ClosingAudit; hide Parks; hide GotNoAnswer;
  }

  lemma StepKeepsContacts(w: World, s: Step, id: CallId)
    requires Sane(w) && Enabled(w, s) && ContactExact(w, id) && (s.BeginStep? ==> ContactExact(w, s.id))
    ensures Sane(Next(w, s)) && ContactExact(Next(w, s), id)
    ensures id in w.calls ==>
      && id in Next(w, s).calls && Of(Next(w, s).contacts, id) == Of(w.contacts, id)
      && IsRemoteCall(Next(w, s).calls[id]) == IsRemoteCall(w.calls[id])
  {
    StepKeepsSane(w, s);
    match s
    case BeginStep(c, i) =>
      BeginContacts(w, c, i, id);
      BeginKeepsOthers(w, c, i, id);
      hide Of; hide Begin; hide ContactFits;
    case ReturnStep(_, _, _) => ReturnContacts(w, s, id);
    case CloseStep(_) => CloseContacts(w, s, id);
    case _ => hide Of; hide ContactFits;
  }

  lemma BeginKeepsOthers(w: World, c: CallId, i: Intent, id: CallId)
    ensures c in Begin(w, c, i).calls
    ensures id != c ==> (id in Begin(w, c, i).calls <==> id in w.calls)
    ensures id != c && id in w.calls ==> Begin(w, c, i).calls[id] == w.calls[id]
  {
    hide RouteSpec;
  }

  lemma StepKeepsSane(w: World, s: Step)
    requires Sane(w) && Enabled(w, s)
    ensures Sane(Next(w, s))
  {
    if s.Register? { PutFacts(w.reg, s.cap); }
    hide RouteSpec; hide EventFor; hide ClosingAudit; hide Put; hide Distinct;
  }

  /** Over every interleaving the contacts of each call fit its phase, and they are settled by
      its routing: later steps, its own or others', add none. */
  lemma {:induction false} ContactsOverRuns(w: World, steps: seq<Step>, id: CallId)
    requires Sane(w) && (forall c :: ContactExact(w, c)) && Exec(w, steps).Some?
    ensures var v := Exec(w, steps).value;
      && ContactExact(v, id)
      && (id in w.calls ==>
            && id in v.calls && Of(v.contacts, id) == Of(w.contacts, id)
            && IsRemoteCall(v.calls[id]) == IsRemoteCall(w.calls[id]))
    decreases |steps|
  {
    if steps != [] {
      var w' := Next(w, steps[0]);
      forall c ensures ContactExact(w', c) {
        StepKeepsContacts(w, steps[0], c);
      }
      StepKeepsContacts(w, steps[0], id);
      hide ContactExact; hide Next; hide Sane; hide Enabled; hide IsRemoteCall; hide Of;
      ContactsOverRuns(w', steps[1..], id);
    }
  }

  /** A call that was routed to a remote profile and contacted nobody, in particular one without a
      target node, contacts nobody in any continuation and never parks; once its dispatch is over
      it has raised or failed, and once it is closed it holds no slot. */
  lemma NobodyContactedFails(w: World, steps: seq<Step>, id: CallId)
    requires Sane(w) && (forall c :: ContactExact(w, c)) && Exec(w, steps).Some? && TraceExact(w, id)
    requires id in w.calls && w.calls[id].Running? && w.calls[id].remote && w.calls[id].peer.None?
    ensures var v := Exec(w, steps).value;
      && id in v.calls && Of(v.contacts, id) == []
      && !v.calls[id].Parked?
      && (v.calls[id].Ending? || v.calls[id].Released? ==> GotNoAnswer(v.calls[id].reply))
      && (v.calls[id].Released? ==> v.calls[id].Slot().None?)
  {
    assert ContactExact(w, id);
    ContactsOverRuns(w, steps, id);
    TracesOverRuns(w, steps, id);
    hide Of; hide Exec; hide EventsAt; hide AuditAt;
  }

  // ---- from the start ----

  function Start(reg: Registry, localNode: string, peers: set<string>, hasMesh: bool, hasOrchestrator: bool): World {
    World(reg, {}, localNode, peers, {}, hasMesh, hasOrchestrator, map[], [], [], [])
  }

  /** The start of every run satisfies the invariants. */
  lemma StartIsSafe(reg: Registry, localNode: string, peers: set<string>, hasMesh: bool, hasOrchestrator: bool)
    requires Distinct(reg) && "" !in peers
    ensures var w := Start(reg, localNode, peers, hasMesh, hasOrchestrator);
      && SlotsExact(w) && Sane(w) && HeldAreNamed(w)
      && (forall id :: TraceExact(w, id) && ContactExact(w, id))
  {
  }

  /** So from the start every interleaving keeps them. */
  lemma SafeFromStart(reg: Registry, localNode: string, peers: set<string>, hasMesh: bool, hasOrchestrator: bool,
                      steps: seq<Step>, id: CallId)
    requires Distinct(reg) && "" !in peers
    requires var w := Start(reg, localNode, peers, hasMesh, hasOrchestrator); Exec(w, steps).Some? && Wired(w, steps)
    ensures var v := Exec(Start(reg, localNode, peers, hasMesh, hasOrchestrator), steps).value;
      SlotsExact(v) && TraceExact(v, id) && ContactExact(v, id)
  {
    StartIsSafe(reg, localNode, peers, hasMesh, hasOrchestrator);
    var w := Start(reg, localNode, peers, hasMesh, hasOrchestrator);
    hide *;
    SlotSafety(w, steps);
    TracesOverRuns(w, steps, id);
    ContactsOverRuns(w, steps, id);
  }

  // ---- releases of nobody ----

  predicate AllNamed(reg: Registry) {
    forall c | c in reg :: c.profileName != ""
  }

  ghost predicate HeldAreNamed(w: World) {
    forall id | Holds(w, id) :: SlotOf(w, id) != ""
  }

  /** The steps register only named profiles, and releases on behalf of records name none. */
  predicate ReleasesNobody(s: Step) {
    (s.Register? ==> s.cap.profileName != "") && (s.OrchestratorRelease? ==> s.profile == "")
  }

  lemma PutKeepsNamed(reg: Registry, cap: Capability)
    requires AllNamed(reg) && cap.profileName != ""
    ensures AllNamed(Put(reg, cap))
  {
    if reg != [] {
      assert forall c | c in reg[1..] :: c in reg;
      if reg[0].profileName != cap.profileName {
        PutKeepsNamed(reg[1..], cap);
      }
    }
  }

  lemma BeginKeepsHeldNamed(w: World, id: CallId, i: Intent)
    requires Distinct(w.reg) && AllNamed(w.reg) && HeldAreNamed(w) && id !in w.calls
    ensures HeldAreNamed(Begin(w, id, i))
  {
    DispatchedIsSound(w.reg, w.busy, w.localNode, i);
    hide RouteSpec;
    var w' := Begin(w, id, i);
    assert forall a :: a != id ==> (Holds(w', a) <==> Holds(w, a)) && (Holds(w, a) ==> SlotOf(w', a) == SlotOf(w, a));
  }

  lemma LaterKeepsHeld(w: World, s: Step, a: CallId)
    requires Enabled(w, s) && !s.BeginStep?
    ensures Holds(Next(w, s), a) ==> Holds(w, a) && SlotOf(Next(w, s), a) == SlotOf(w, a)
  {
    hide Begin; hide EventFor; hide ClosingAudit; hide Put; hide Settle;
  }

  lemma StepKeepsHeldNamed(w: World, s: Step)
    requires Sane(w) && AllNamed(w.reg) && HeldAreNamed(w) && Enabled(w, s) && ReleasesNobody(s)
    ensures HeldAreNamed(Next(w, s))
  {
    if s.BeginStep? {
      BeginKeepsHeldNamed(w, s.id, s.i);
    } else {
      forall a | Holds(Next(w, s), a) ensures SlotOf(Next(w, s), a) != "" {
        LaterKeepsHeld(w, s, a);
        hide Next; hide Holds; hide SlotOf;
      }
    }
    hide Begin; hide Return; hide Close; hide Put;
  }

  lemma StepKeepsNamed(w: World, s: Step)
    requires AllNamed(w.reg) && Enabled(w, s) && ReleasesNobody(s)
    ensures AllNamed(Next(w, s).reg)
  {
    if s.Register? { PutKeepsNamed(w.reg, s.cap); }
    hide RouteSpec; hide EventFor; hide ClosingAudit; hide AllNamed; hide Put;
  }

  /** With named profiles, a run whose releases on behalf of records name nobody is wired. */
  lemma {:induction false} NamelessReleasesAreWired(w: World, steps: seq<Step>)
    requires Sane(w) && AllNamed(w.reg) && HeldAreNamed(w)
    requires forall k | 0 <= k < |steps| :: ReleasesNobody(steps[k])
    ensures Wired(w, steps)
    decreases |steps|
  {
    if steps != [] && Enabled(w, steps[0]) {
      assert ReleasesNobody(steps[0]);
      assert steps[0].OrchestratorRelease? ==> !Live(w, steps[0].profile);
      StepKeepsSane(w, steps[0]);
      StepKeepsNamed(w, steps[0]);
      StepKeepsHeldNamed(w, steps[0]);
      hide ReleasesNobody; hide Sane; hide AllNamed; hide HeldAreNamed; hide Next; hide Live;
      NamelessReleasesAreWired(Next(w, steps[0]), steps[1..]);
    }
  }
}
