/** The orchestrator: registering tasks in their conversations, and reacting to their status
    changes by recruiting a specialist and resuming the task that asked.

    The dispatcher is an arbitrary oracle: what it answers to the specialist's intent and to
    the resume intent are parameters of a status change. The prose of the escalation reasons is
    reduced to its cause. */
module Orchestrator {
  import opened Options
  import opened Fleet
  import opened Tasks
  import opened Conversation

  const MAX_SPECIALIST_DEPTH: nat := 3

  datatype Body = Ask(question: Question) | Resume(answer: Option<Payload>, taskId: string)

  datatype Sent = Sent(intentType: string, targetProfile: string, targetNode: string,
                       contextId: string, refs: seq<string>, body: Body, tags: seq<string>)

  /** Graphs in the order their contexts were first seen, and the table of depths. */
  datatype Orch = Orch(graphs: seq<Graph>, depth: map<string, nat>)

  const NOTHING: Orch := Orch([], map[])

  function DepthOf(depth: map<string, nat>, id: string): nat {
    if id in depth then depth[id] else 0
  }

  // ---- registration ----

  function GraphOf(gs: seq<Graph>, contextId: string): (r: Option<nat>)
    ensures r.Some? ==> r.value < |gs| && gs[r.value].contextId == contextId
    ensures r.None? ==> forall k | 0 <= k < |gs| :: gs[k].contextId != contextId
  {
    if gs == [] then None
    else if gs[|gs| - 1].contextId == contextId then Some(|gs| - 1)
    else GraphOf(gs[..|gs| - 1], contextId)
  }

  /** A record that inherits what it is not given from its parent, if the context has it. */
  function NewRecord(ts: seq<Record>, taskId: string, contextId: string, parent: Option<string>,
                     profile: Option<string>, node: Option<string>): Record
  {
    var at := if Given(parent) then IndexOfTask(ts, parent.value) else None;
    var refs := if Given(parent) then [parent.value] else [];
    if at.None? then
      Record(taskId, contextId, Submitted, "unknown", "local", if Given(profile) then profile.value else "",
             if Given(node) then node.value else "", map[], None, [], [], refs, None, false)
    else
      var p := ts[at.value];
      Record(taskId, contextId, Submitted, p.intentType, p.sourceNode,
             if Given(profile) then profile.value else p.targetProfile,
             if Given(node) then node.value else p.targetNode, p.payload, None, [], [], refs, None, false)
  }

  function Opened(gs: seq<Graph>, contextId: string, taskId: string): (r: seq<Graph>)
    ensures GraphOf(r, contextId).Some?
  {
    if GraphOf(gs, contextId).Some? then gs else gs + [Graph(contextId, taskId, [])]
  }

  function Register(o: Orch, taskId: string, contextId: string, parent: Option<string>,
                    profile: Option<string>, node: Option<string>): Orch
  {
    var gs := Opened(o.graphs, contextId, taskId);
    var at := GraphOf(gs, contextId).value;
    var ts := gs[at].tasks;
    Orch(gs[at := gs[at].(tasks := PutTask(ts, NewRecord(ts, taskId, contextId, parent, profile, node)))],
         if Given(parent) then o.depth[taskId := DepthOf(o.depth, parent.value) + 1] else o.depth)
  }

  // ---- a status change ----

  function Stamp(r: Record, newState: Status, res: TaskResult): Record {
    r.(status := newState,
       result := if res.data.Some? then res.data else r.result,
       messages := r.messages + res.messages,
       artifacts := r.artifacts + res.artifacts,
       terminal := Terminal(res.status))
  }

  function QuestionOf(res: TaskResult): Question {
    if res.data.None? || res.data.value == map[] then Said("")
    else
      var data := res.data.value;
      if "question" in data && data["question"] != "" then Said(data["question"])
      else if "message" in data then Said(data["message"])
      else Rendered(data)
  }

  function Wanted(res: TaskResult): seq<string> {
    if res.tags.Some? then res.tags.value else []
  }

  function Specialists(reg: Registry, wanted: seq<string>): seq<Capability> {
    var consultants := Discovered(reg, "consultation", wanted);
    if consultants != [] then consultants else Discovered(reg, "action_request", wanted)
  }

  function Consultation(r: Record, c: Capability, res: TaskResult): Sent {
    Sent("consultation", c.profileName, c.nodeId, r.contextId, [r.taskId], Ask(QuestionOf(res)), Wanted(res))
  }

  function Resumption(r: Record, answer: Option<Payload>): Sent {
    Sent("instruction", r.targetProfile, r.targetNode, r.contextId, [r.taskId], Resume(answer, r.taskId), [])
  }

  /** `raised`: the dispatcher raised, which ends the status change where it stands. */
  datatype Outcome = Outcome(record: Record, sent: seq<Sent>, raised: bool)

  function Escalated(r: Record, reason: Escalation): Record {
    r.(escalation := Some(reason), status := InputRequired)
  }

  predicate Answered(reply: Reply) {
    reply.Returned? && Terminal(reply.result.status) && !reply.result.requiresEscalation
  }

  /** After the resume intent was answered. */
  function Resumed(r: Record, reply: TaskResult): Record {
    if Terminal(reply.status) && !reply.status.Completed? then r.(status := reply.status, result := reply.data)
    else r.(status := Working)
  }

  function HandleInput(r: Record, depth: nat, reg: Registry, res: TaskResult, specialist: Reply,
      resume: Reply): Outcome {
    var found := Specialists(reg, Wanted(res));
    if depth >= MAX_SPECIALIST_DEPTH then Outcome(Escalated(r, DepthReached(r.taskId)), [], false)
    else if found == [] then Outcome(Escalated(r, NobodyFound(r.taskId, QuestionOf(res))), [], false)
    else
      var asked := Consultation(r, found[0], res);
      if specialist.Raised? then Outcome(r, [asked], true)
      else if Answered(specialist) then
        var sent := [asked, Resumption(r, specialist.result.data)];
        if resume.Raised? then Outcome(r, sent, true) else Outcome(Resumed(r, resume.result), sent, false)
      else if specialist.result.requiresEscalation then
        Outcome(Escalated(r, Told(specialist.result.escalationReason)), [asked], false)
      else Outcome(r.(status := specialist.result.status, result := specialist.result.data), [asked], false)
  }

  function Change(r: Record, depth: nat, reg: Registry, newState: Status, res: TaskResult, specialist: Reply,
      resume: Reply): Outcome {
    var stamped := Stamp(r, newState, res);
    if newState == InputRequired && !res.requiresEscalation then
      HandleInput(stamped, depth, reg, res, specialist, resume)
    else Outcome(stamped, [], false)
  }

  predicate Has(ts: seq<Record>, id: string) {
    IndexOfTask(ts, id).Some?
  }

  /** The first graph that holds the task. */
  function FindGraph(gs: seq<Graph>, id: string): (r: Option<nat>)
    ensures r.Some? ==> r.value < |gs| && Has(gs[r.value].tasks, id)
    ensures forall k | 0 <= k < if r.Some? then r.value else |gs| :: !Has(gs[k].tasks, id)
  {
    if gs == [] then None
    else if Has(gs[0].tasks, id) then Some(0)
    else
      var r := FindGraph(gs[1..], id);
      if r.Some? then Some(r.value + 1) else None
  }

  /** The task is in place `a` of graph `i`. */
  predicate At(o: Orch, id: string, i: nat, a: nat) {
    FindGraph(o.graphs, id) == Some(i) && IndexOfTask(o.graphs[i].tasks, id) == Some(a)
  }

  function SetTask(gs: seq<Graph>, i: nat, a: nat, r: Record): seq<Graph>
    requires i < |gs| && a < |gs[i].tasks|
  {
    gs[i := gs[i].(tasks := gs[i].tasks[a := r])]
  }

  datatype Event =
    | RegisterTask(taskId: string, contextId: string, parent: Option<string>, profile: Option<string>,
        node: Option<string>)
    | StatusChange(taskId: string, reg: Registry, newState: Status, res: TaskResult, specialist: Reply, resume: Reply)

  /** The state after an event, the intents it sent, the profile it released, and whether the
      dispatcher raised. */
  datatype Effect = Effect(orch: Orch, sent: seq<Sent>, released: Option<string>, raised: bool)

  function OutcomeOf(o: Orch, e: Event): Outcome
    requires e.StatusChange? && FindGraph(o.graphs, e.taskId).Some?
  {
    var ts := o.graphs[FindGraph(o.graphs, e.taskId).value].tasks;
    Change(ts[IndexOfTask(ts, e.taskId).value], DepthOf(o.depth, e.taskId), e.reg, e.newState, e.res, e.specialist,
        e.resume)
  }

  function Handle(o: Orch, e: Event): Effect {
    match e
    case RegisterTask(id, contextId, parent, profile, node) =>
      Effect(Register(o, id, contextId, parent, profile, node), [], None, false)
    case StatusChange(id, _, _, res, _, _) =>
      var i := FindGraph(o.graphs, id);
      if i.None? then Effect(o, [], None, false)
      else
        var a := IndexOfTask(o.graphs[i.value].tasks, id).value;
        var out := OutcomeOf(o, e);
        Effect(o.(graphs := SetTask(o.graphs, i.value, a, out.record)), out.sent,
               if !out.raised && Terminal(res.status) then Some(out.record.targetProfile) else None, out.raised)
  }

  function Run(o: Orch, events: seq<Event>): Orch
    decreases |events|
  {
    if events == [] then o else Run(Handle(o, events[0]).orch, events[1..])
  }

  // ---- the discipline of a run ----

  /** How many tasks lie above this one. */
  function Ancestors(ts: seq<Record>, j: nat): nat
    requires Disciplined(ts) && j < |ts|
    decreases j
  {
    ParentIsEarlier(ts, j);
    if Parent(ts, j).None? then 0 else 1 + Ancestors(ts, Parent(ts, j).value)
  }

  /** The root comes first, every record belongs to the context, and the depth table agrees
      with the tree. */
  predicate GraphSound(g: Graph, depth: map<string, nat>) {
    && g.tasks != [] && g.tasks[0].taskId == g.rootTaskId
    && Disciplined(g.tasks)
    && (forall j: nat | j < |g.tasks| :: g.tasks[j].contextId == g.contextId)
    && (forall j: nat | j < |g.tasks| :: DepthOf(depth, g.tasks[j].taskId) == Ancestors(g.tasks, j))
  }

  predicate DistinctContexts(gs: seq<Graph>) {
    forall i, j | 0 <= i < j < |gs| :: gs[i].contextId != gs[j].contextId
  }

  /** No task is in two graphs. */
  ghost predicate Apart(gs: seq<Graph>) {
    forall i, j, id | 0 <= i < j < |gs| && Has(gs[i].tasks, id) :: !Has(gs[j].tasks, id)
  }

  ghost predicate AllSound(gs: seq<Graph>, depth: map<string, nat>) {
    forall i | 0 <= i < |gs| :: GraphSound(gs[i], depth)
  }

  predicate Known(gs: seq<Graph>, id: string) {
    FindGraph(gs, id).Some?
  }

  ghost predicate Sound(o: Orch) {
    && DistinctContexts(o.graphs)
    && Apart(o.graphs)
    && AllSound(o.graphs, o.depth)
    && (forall id | id in o.depth :: Known(o.graphs, id))
  }

  /** A registration uses a fresh id, and names no parent or one registered before in the same
      context. Status changes are free. */
  predicate Obeys(o: Orch, e: Event) {
    e.RegisterTask? ==>
      && !Known(o.graphs, e.taskId)
      && (Given(e.parent) ==>
            && GraphOf(o.graphs, e.contextId).Some?
            && Has(o.graphs[GraphOf(o.graphs, e.contextId).value].tasks, e.parent.value))
  }

  predicate Followed(o: Orch, events: seq<Event>)
    decreases |events|
  {
    events == [] || (Obeys(o, events[0]) && Followed(Handle(o, events[0]).orch, events[1..]))
  }

  // ---- what a status change leaves of the shape ----

  predicate SameShape(ts: seq<Record>, us: seq<Record>) {
    && |ts| == |us|
    && forall j | 0 <= j < |ts| :: us[j].taskId == ts[j].taskId && us[j].contextId == ts[j].contextId
        && us[j].refs == ts[j].refs
  }

  lemma {:induction false} ShapeIndex(ts: seq<Record>, us: seq<Record>, id: string)
    requires SameShape(ts, us)
    ensures IndexOfTask(us, id) == IndexOfTask(ts, id)
  {
    if ts != [] {
      ShapeIndex(ts[..|ts| - 1], us[..|us| - 1], id);
    }
  }

  lemma ShapeDisciplined(ts: seq<Record>, us: seq<Record>)
    requires SameShape(ts, us) && Disciplined(ts)
    ensures Disciplined(us)
  {
    forall j: nat | j < |us| ensures ParentBefore(us, j) {
      assert ParentBefore(ts, j);
    }
  }

  lemma {:induction false} ShapeAncestors(ts: seq<Record>, us: seq<Record>, j: nat)
    requires SameShape(ts, us) && Disciplined(ts) && Disciplined(us) && j < |ts|
    ensures Ancestors(us, j) == Ancestors(ts, j)
    decreases j
  {
    ParentIsEarlier(ts, j);
    if ts[j].refs != [] {
      ShapeIndex(ts, us, ts[j].refs[0]);
      ShapeAncestors(ts, us, Parent(ts, j).value);
    }
  }

  lemma ShapeSound(g: Graph, us: seq<Record>, depth: map<string, nat>)
    requires SameShape(g.tasks, us) && GraphSound(g, depth)
    ensures GraphSound(g.(tasks := us), depth)
  {
    ShapeDisciplined(g.tasks, us);
    forall j: nat | j < |us| ensures DepthOf(depth, us[j].taskId) == Ancestors(us, j) {
      ShapeAncestors(g.tasks, us, j);
    }
  }

  // ---- appending a record ----

  lemma AppendIndex(ts: seq<Record>, r: Record, id: string)
    ensures IndexOfTask(ts + [r], id) == if r.taskId == id then Some(|ts|) else IndexOfTask(ts, id)
  {
    assert (ts + [r])[..|ts|] == ts;
  }

  /** A fresh record whose parent, if any, is there. */
  predicate Attachable(ts: seq<Record>, r: Record) {
    !Has(ts, r.taskId) && (r.refs == [] || (|r.refs| == 1 && Has(ts, r.refs[0])))
  }

  lemma AppendDisciplined(ts: seq<Record>, r: Record)
    requires Disciplined(ts) && Attachable(ts, r)
    ensures Disciplined(ts + [r])
  {
    var us := ts + [r];
    forall j: nat | j < |us| ensures ParentBefore(us, j) {
      if j < |ts| {
        assert ParentBefore(ts, j);
        if ts[j].refs != [] {
          var k :| 0 <= k < j && ts[k].taskId == ts[j].refs[0];
          assert us[k].taskId == us[j].refs[0];
        }
      } else if r.refs != [] {
        var k := IndexOfTask(ts, r.refs[0]).value;
        assert us[k].taskId == us[j].refs[0];
      }
    }
  }

  lemma {:induction false} AppendAncestors(ts: seq<Record>, r: Record, j: nat)
    requires Disciplined(ts) && Disciplined(ts + [r]) && !Has(ts, r.taskId) && j < |ts|
    ensures Ancestors(ts + [r], j) == Ancestors(ts, j)
    decreases j
  {
    ParentIsEarlier(ts, j);
    if ts[j].refs != [] {
      AppendIndex(ts, r, ts[j].refs[0]);
      AppendAncestors(ts, r, Parent(ts, j).value);
    }
  }

  lemma LastAncestors(ts: seq<Record>, r: Record)
    requires Disciplined(ts) && Attachable(ts, r) && Disciplined(ts + [r])
    ensures Ancestors(ts + [r], |ts|) ==
            if r.refs == [] then 0 else 1 + Ancestors(ts, IndexOfTask(ts, r.refs[0]).value)
  {
    var us := ts + [r];
    assert us[|ts|] == r;
    if r.refs != [] {
      AppendIndex(ts, r, r.refs[0]);
      AppendAncestors(ts, r, IndexOfTask(ts, r.refs[0]).value);
    }
  }

  /** Assembling the invariant when only graph `at` changed, or was added at the end. */
  lemma Assemble(o: Orch, v: Orch, at: nat, id: string)
    requires Sound(o) && at < |v.graphs| && |o.graphs| <= |v.graphs| && |v.graphs| <= |o.graphs| + 1
    requires forall k | 0 <= k < |v.graphs| && k != at :: k < |o.graphs| && v.graphs[k] == o.graphs[k]
    requires if at < |o.graphs| then v.graphs[at].contextId == o.graphs[at].contextId
             else GraphOf(o.graphs, v.graphs[at].contextId).None?
    requires forall x | Has(v.graphs[at].tasks, x) ::
               (at < |o.graphs| && Has(o.graphs[at].tasks, x)) || (x == id && !Known(o.graphs, id))
    requires at < |o.graphs| ==> forall x | Has(o.graphs[at].tasks, x) :: Has(v.graphs[at].tasks, x)
    requires forall x | x in v.depth :: x in o.depth || Has(v.graphs[at].tasks, x)
    requires AllSound(v.graphs, v.depth)
    ensures Sound(v)
  {
    hide GraphSound; hide Has;
    assert Apart(v.graphs) by {
      forall i, j, x | 0 <= i < j < |v.graphs| && Has(v.graphs[i].tasks, x) ensures !Has(v.graphs[j].tasks, x) {
        assert x == id && !Known(o.graphs, id) ==> forall k | 0 <= k < |o.graphs| :: !Has(o.graphs[k].tasks, x);
      }
    }
    forall x | x in v.depth ensures Known(v.graphs, x) {
      if x in o.depth {
        var k := FindGraph(o.graphs, x).value;
        assert Has(v.graphs[k].tasks, x);
      }
    }
  }

  /** A status change only writes the status, the result, the messages, the artifacts, the
      escalation and the terminal flag, and it only appends messages and artifacts. */
  lemma ChangeWrites(r: Record, depth: nat, reg: Registry, newState: Status, res: TaskResult, specialist: Reply,
      resume: Reply)
    ensures var q := Change(r, depth, reg, newState, res, specialist, resume).record;
      && q == r.(status := q.status, result := q.result, messages := r.messages + res.messages,
                 artifacts := r.artifacts + res.artifacts, escalation := q.escalation, terminal := Terminal(res.status))
      && (q.escalation == r.escalation
          || (q.escalation.Some? && q.status == InputRequired && newState == InputRequired))
  {
    hide QuestionOf; hide Specialists; hide Consultation; hide Resumption;
  }

  lemma ChangeKeepsShape(o: Orch, e: Event)
    requires e.StatusChange? && FindGraph(o.graphs, e.taskId).Some?
    ensures var r := OutcomeOf(o, e).record; var ts := o.graphs[FindGraph(o.graphs, e.taskId).value].tasks;
      SameShape(ts, ts[IndexOfTask(ts, e.taskId).value := r])
  {
    var ts := o.graphs[FindGraph(o.graphs, e.taskId).value].tasks;
    ChangeWrites(ts[IndexOfTask(ts, e.taskId).value], DepthOf(o.depth, e.taskId), e.reg, e.newState, e.res,
        e.specialist, e.resume);
    hide Change;
  }

  lemma StatusWrites(o: Orch, e: Event)
    requires e.StatusChange? && FindGraph(o.graphs, e.taskId).Some?
    ensures var i := FindGraph(o.graphs, e.taskId).value; var ts := o.graphs[i].tasks;
      var us := ts[IndexOfTask(ts, e.taskId).value := OutcomeOf(o, e).record];
      Handle(o, e).orch == o.(graphs := o.graphs[i := o.graphs[i].(tasks := us)])
  {
    hide OutcomeOf; hide IndexOfTask; hide FindGraph;
  }

  lemma StatusKeepsSound(o: Orch, e: Event)
    requires Sound(o) && e.StatusChange?
    ensures Sound(Handle(o, e).orch)
  {
    var at := FindGraph(o.graphs, e.taskId);
    if at.Some? {
      var i := at.value;
      var ts := o.graphs[i].tasks;
      var us := ts[IndexOfTask(ts, e.taskId).value := OutcomeOf(o, e).record];
      ChangeKeepsShape(o, e);
      var v := Handle(o, e).orch;
      StatusWrites(o, e);
      hide OutcomeOf; hide Handle; hide IndexOfTask; hide FindGraph; hide SameShape; hide GraphSound;
      ShapeSound(o.graphs[i], us, o.depth);
      forall x ensures Has(us, x) == Has(ts, x) {
        ShapeIndex(ts, us, x);
      }
      Assemble(o, v, i, e.taskId);
    }
  }

  /** The depth entry of a task that is not in the graph does not matter to it. */
  lemma DepthElsewhere(g: Graph, depth: map<string, nat>, id: string, n: nat)
    requires GraphSound(g, depth) && !Has(g.tasks, id)
    ensures GraphSound(g, depth[id := n])
  {
  }

  /** The graph a disciplined registration adds to, before and after. */
  lemma AttachSound(g: Graph, depth: map<string, nat>, r: Record, deeper: map<string, nat>)
    requires GraphSound(g, depth) || (g.tasks == [] && r.taskId == g.rootTaskId)
    requires Attachable(g.tasks, r) && r.contextId == g.contextId && r.taskId !in depth
    requires deeper == if r.refs == [] then depth else depth[r.taskId := DepthOf(depth, r.refs[0]) + 1]
    ensures GraphSound(g.(tasks := g.tasks + [r]), deeper)
  {
    var ts, us := g.tasks, g.tasks + [r];
    AppendDisciplined(ts, r);
    forall j: nat | j < |us|
      ensures us[j].contextId == g.contextId && DepthOf(deeper, us[j].taskId) == Ancestors(us, j)
    {
      if j < |ts| {
        AppendAncestors(ts, r, j);
      } else {
        LastAncestors(ts, r);
      }
    }
  }

  lemma NewRecordAttaches(ts: seq<Record>, taskId: string, contextId: string, parent: Option<string>,
                          profile: Option<string>, node: Option<string>)
    requires !Has(ts, taskId) && (Given(parent) ==> Has(ts, parent.value))
    ensures var r := NewRecord(ts, taskId, contextId, parent, profile, node);
      && Attachable(ts, r) && PutTask(ts, r) == ts + [r] && r.taskId == taskId && r.contextId == contextId
      && r.refs == if Given(parent) then [parent.value] else []
  {
  }

  lemma OpenedForm(o: Orch, e: Event)
    requires Sound(o) && e.RegisterTask? && Obeys(o, e)
    ensures var gs := Opened(o.graphs, e.contextId, e.taskId); var at := GraphOf(gs, e.contextId).value;
      && (at < |o.graphs| ==> gs == o.graphs)
      && (at >= |o.graphs| ==> gs == o.graphs + [Graph(e.contextId, e.taskId, [])] && at == |o.graphs|
                               && GraphOf(o.graphs, e.contextId).None?)
      && !Has(gs[at].tasks, e.taskId) && (Given(e.parent) ==> Has(gs[at].tasks, e.parent.value))
  {
    hide GraphSound; hide Apart; hide AllSound; hide DistinctContexts;
  }

  lemma RegisterUnfolds(o: Orch, e: Event, gs: seq<Graph>, at: nat, r: Record)
    requires e.RegisterTask? && gs == Opened(o.graphs, e.contextId, e.taskId) && GraphOf(gs, e.contextId) == Some(at)
    requires r == NewRecord(gs[at].tasks, e.taskId, e.contextId, e.parent, e.profile, e.node)
    ensures Handle(o, e).orch == Register(o, e.taskId, e.contextId, e.parent, e.profile, e.node) ==
            Orch(gs[at := gs[at].(tasks := PutTask(gs[at].tasks, r))],
                 if Given(e.parent) then o.depth[e.taskId := DepthOf(o.depth, e.parent.value) + 1] else o.depth)
  {
    hide PutTask; hide NewRecord; hide Opened; hide GraphOf; hide Given;
  }

  /** What a disciplined registration does: it appends one record to the graph of the context,
      which may be new. */
  lemma RegisterForm(o: Orch, e: Event, gs: seq<Graph>, at: nat, r: Record)
    requires Sound(o) && e.RegisterTask? && Obeys(o, e)
    requires gs == Opened(o.graphs, e.contextId, e.taskId) && GraphOf(gs, e.contextId) == Some(at)
    requires r == NewRecord(gs[at].tasks, e.taskId, e.contextId, e.parent, e.profile, e.node)
    ensures Handle(o, e).orch.graphs == gs[at := gs[at].(tasks := gs[at].tasks + [r])]
    ensures r.taskId == e.taskId && r.contextId == e.contextId && Attachable(gs[at].tasks, r)
    ensures Handle(o, e).orch.depth == if r.refs == [] then o.depth
            else o.depth[e.taskId := DepthOf(o.depth, r.refs[0]) + 1]
  {
    hide *;
    OpenedForm(o, e);
    NewRecordAttaches(gs[at].tasks, e.taskId, e.contextId, e.parent, e.profile, e.node);
    RegisterUnfolds(o, e, gs, at, r);
  }

  lemma OthersStaySound(o: Orch, id: string, n: nat)
    requires AllSound(o.graphs, o.depth) && !Known(o.graphs, id)
    ensures AllSound(o.graphs, o.depth[id := n])
  {
    forall k | 0 <= k < |o.graphs| ensures GraphSound(o.graphs[k], o.depth[id := n]) {
      DepthElsewhere(o.graphs[k], o.depth, id, n);
    }
  }

  lemma RegisterKeepsSound(o: Orch, e: Event)
    requires Sound(o) && e.RegisterTask? && Obeys(o, e)
    ensures Sound(Handle(o, e).orch)
  {
    OpenedForm(o, e);
    var gs := Opened(o.graphs, e.contextId, e.taskId);
    var at := GraphOf(gs, e.contextId).value;
    var g, v := gs[at], Handle(o, e).orch;
    var r := NewRecord(g.tasks, e.taskId, e.contextId, e.parent, e.profile, e.node);
    RegisterForm(o, e, gs, at, r);
    assert !Known(o.graphs, e.taskId);
    assert e.taskId !in o.depth;
    if r.refs != [] { OthersStaySound(o, e.taskId, DepthOf(o.depth, r.refs[0]) + 1); }
    assert GrewBy(g.tasks, g.tasks + [r], e.taskId) by {
      forall x { AppendIndex(g.tasks, r, x); }
    }
    hide *;
    RegisterSettles(o, v, gs, at, r);
  }

  /** The tasks known to one table and not to the other are at most this one. */
  ghost predicate GrewBy(ts: seq<Record>, us: seq<Record>, id: string) {
    forall x :: Has(us, x) == (Has(ts, x) || x == id)
  }

  lemma RegisterSettles(o: Orch, v: Orch, gs: seq<Graph>, at: nat, r: Record)
    requires Sound(o) && at < |gs| && !Known(o.graphs, r.taskId) && r.taskId !in o.depth
    requires v.graphs == gs[at := gs[at].(tasks := gs[at].tasks + [r])]
    requires at < |o.graphs| ==> gs == o.graphs
    requires at >= |o.graphs| ==>
               gs == o.graphs + [Graph(r.contextId, r.taskId, [])] && GraphOf(o.graphs, r.contextId).None?
    requires r.contextId == gs[at].contextId && Attachable(gs[at].tasks, r)
    requires v.depth == if r.refs == [] then o.depth else o.depth[r.taskId := DepthOf(o.depth, r.refs[0]) + 1]
    requires AllSound(o.graphs, v.depth) && GrewBy(gs[at].tasks, gs[at].tasks + [r], r.taskId)
    ensures Sound(v)
  {
    AllSettle(o, v, gs, at, r);
    var us := gs[at].tasks + [r];
    assert forall x | x in v.depth :: x in o.depth || Has(us, x);
    hide AllSound; hide Apart; hide DistinctContexts; hide Attachable; hide FindGraph; hide IndexOfTask;
    hide DepthOf; hide Sound; hide GraphOf;
    assert at >= |o.graphs| ==> forall x | Has(us, x) :: x == r.taskId by {
      assert at >= |o.graphs| ==> forall x :: !Has(gs[at].tasks, x);
    }
    assert at < |o.graphs| ==> forall x | Has(us, x) :: Has(gs[at].tasks, x) || x == r.taskId;
    hide Has; hide GrewBy; hide Known;
    Assemble(o, v, at, r.taskId);
  }

  lemma AllSettle(o: Orch, v: Orch, gs: seq<Graph>, at: nat, r: Record)
    requires Sound(o) && at < |gs| && r.taskId !in o.depth
    requires v.graphs == gs[at := gs[at].(tasks := gs[at].tasks + [r])]
    requires at < |o.graphs| ==> gs == o.graphs
    requires at >= |o.graphs| ==> gs == o.graphs + [Graph(r.contextId, r.taskId, [])]
    requires r.contextId == gs[at].contextId && Attachable(gs[at].tasks, r)
    requires v.depth == if r.refs == [] then o.depth else o.depth[r.taskId := DepthOf(o.depth, r.refs[0]) + 1]
    requires AllSound(o.graphs, v.depth)
    ensures AllSound(v.graphs, v.depth)
  {
    hide GraphSound; hide Attachable; hide Apart; hide DepthOf; hide DistinctContexts; hide Known;
    AttachSound(gs[at], o.depth, r, v.depth);
  }

  /** The discipline keeps the depth table in agreement with the trees: for every task of every
      conversation the table holds the number of its ancestors. */
  lemma {:induction false} RunKeepsSound(o: Orch, events: seq<Event>)
    requires Sound(o) && Followed(o, events)
    ensures Sound(Run(o, events))
    decreases |events|
  {
    if events != [] {
      hide Sound; hide Handle;
      if events[0].StatusChange? { StatusKeepsSound(o, events[0]); } else { RegisterKeepsSound(o, events[0]); }
      RunKeepsSound(Handle(o, events[0]).orch, events[1..]);
    }
  }

  // ---- the tree of a conversation ----

  /** After any disciplined run, the tree of every conversation can be built, and it lists
      exactly the tasks whose chain of parents reaches the root, each of them once. */
  lemma ConversationTree(events: seq<Event>, i: nat)
    requires Followed(NOTHING, events) && i < |Run(NOTHING, events).graphs|
    ensures var g := Run(NOTHING, events).graphs[i];
      && Disciplined(g.tasks) && IndexOfTask(g.tasks, g.rootTaskId) == Some(0)
      && Build(g.tasks, 0, |g.tasks|).Some?
      && (var ids := Ids(Build(g.tasks, 0, |g.tasks|).value);
          && (forall j | 0 <= j < |g.tasks| ::
                multiset(ids)[g.tasks[j].taskId] == if Reaches(g.tasks, j, 0) then 1 else 0)
          && (forall id | id in ids :: Has(g.tasks, id)))
  {
    RunKeepsSound(NOTHING, events);
    var g := Run(NOTHING, events).graphs[i];
    assert GraphSound(g, Run(NOTHING, events).depth);
    hide Run; hide Followed; hide Sound; hide Reaches; hide Build; hide Ids;
    Found(g.tasks, 0);
    TreeListsDescendants(g.tasks, 0);
  }

  /** So a disciplined run never makes the report of a conversation hang. */
  lemma DisciplinedTreesCanBeBuilt(events: seq<Event>, contextId: string)
    requires Followed(NOTHING, events)
    ensures TreeCanBeBuilt(Run(NOTHING, events).graphs, contextId)
  {
    var gs := Run(NOTHING, events).graphs;
    if GraphOf(gs, contextId).Some? {
      ConversationTree(events, GraphOf(gs, contextId).value);
    }
    hide Run; hide Followed; hide Build; hide Disciplined;
  }

  /** A task registered as its own parent makes building the tree run forever, so the
      discipline cannot be dropped. */
  lemma SelfParentNeverEnds(id: string, contextId: string)
    requires id != ""
    ensures var o := Register(NOTHING, id, contextId, Some(id), None, None);
      |o.graphs| == 1 && |o.graphs[0].tasks| == 1 && !Ends(o.graphs[0].tasks, 0)
  {
    var o := Register(NOTHING, id, contextId, Some(id), None, None);
    var ts := o.graphs[0].tasks;
    assert ts == [NewRecord([], id, contextId, Some(id), None, None)];
    assert 0 in Children(ts, id);
    var p := [0, 0];
    assert PathFrom(ts, 0, p) && p[0] == p[1];
    TreeEndsExactly(ts, 0);
  }

  // ---- depth and specialists ----

  /** The k-th profile is the first that can handle the intent. */
  predicate FirstAble(reg: Registry, intentType: string, wanted: seq<string>, k: nat) {
    k < |reg| && reg[k].CanHandle(intentType, wanted) && forall j | 0 <= j < k :: !reg[j].CanHandle(intentType, wanted)
  }

  lemma LaterKeepsFirst(reg: Registry, intentType: string, wanted: seq<string>, k: nat)
    requires reg != [] && FirstAble(reg[..|reg| - 1], intentType, wanted, k)
    ensures FirstAble(reg, intentType, wanted, k) && reg[k] == reg[..|reg| - 1][k]
  {
    var front := reg[..|reg| - 1];
    assert forall j | 0 <= j <= k :: reg[j] == front[j];
  }

  lemma {:induction false} FirstDiscovered(reg: Registry, intentType: string, wanted: seq<string>)
    ensures var found := Discovered(reg, intentType, wanted);
      found != [] ==> exists k: nat :: FirstAble(reg, intentType, wanted, k) && reg[k] == found[0]
  {
    if reg != [] {
      var front := reg[..|reg| - 1];
      FirstDiscovered(front, intentType, wanted);
      if Discovered(front, intentType, wanted) != [] {
        var k: nat :| FirstAble(front, intentType, wanted, k) && front[k] == Discovered(front, intentType, wanted)[0];
        LaterKeepsFirst(reg, intentType, wanted, k);
      } else if Discovered(reg, intentType, wanted) != [] {
        assert forall j | 0 <= j < |front| :: front[j] in front;
        assert FirstAble(reg, intentType, wanted, |reg| - 1);
      }
    }
  }

  /** The k-th profile is the first that can handle a consultation; only if there is none, it is
      the first that can handle an action request. */
  predicate BestSpecialist(reg: Registry, wanted: seq<string>, k: nat) {
    || FirstAble(reg, "consultation", wanted, k)
    || ((forall c | c in reg :: !c.CanHandle("consultation", wanted)) && FirstAble(reg, "action_request", wanted, k))
  }

  lemma SpecialistsFacts(reg: Registry, wanted: seq<string>)
    ensures var found := Specialists(reg, wanted);
      && (found == [] <==>
            forall c | c in reg :: !c.CanHandle("consultation", wanted) && !c.CanHandle("action_request", wanted))
      && (found != [] ==> exists k: nat :: k < |reg| && BestSpecialist(reg, wanted, k) && reg[k] == found[0])
  {
    FirstDiscovered(reg, "consultation", wanted);
    FirstDiscovered(reg, "action_request", wanted);
    var consultants, doers := Discovered(reg, "consultation", wanted), Discovered(reg, "action_request", wanted);
    assert forall c | c in reg :: c.CanHandle("consultation", wanted) ==> c in consultants;
    assert forall c | c in reg :: c.CanHandle("action_request", wanted) ==> c in doers;
    assert consultants != [] ==> consultants[0] in consultants;
    assert doers != [] ==> doers[0] in doers;
    hide FirstAble;
    if consultants != [] {
      var k: nat :| FirstAble(reg, "consultation", wanted, k) && reg[k] == consultants[0];
      assert BestSpecialist(reg, wanted, k);
    } else if doers != [] {
      var k: nat :| FirstAble(reg, "action_request", wanted, k) && reg[k] == doers[0];
      assert BestSpecialist(reg, wanted, k);
    }
  }

  predicate Asks(e: Event) {
    e.StatusChange? && e.newState == InputRequired && !e.res.requiresEscalation
  }

  /** What a change sends, in terms of the change alone. */
  lemma ChangeSends(r: Record, depth: nat, e: Event)
    requires e.StatusChange?
    ensures var sent := Change(r, depth, e.reg, e.newState, e.res, e.specialist, e.resume).sent;
            var found := Specialists(e.reg, Wanted(e.res));
      && (sent != [] <==> Asks(e) && depth < MAX_SPECIALIST_DEPTH && found != [])
      && (sent != [] ==> sent[0] == Consultation(r, found[0], e.res))
      && |sent| <= 2
      && (|sent| == 2 <==> sent != [] && Answered(e.specialist))
      && (|sent| == 2 ==> sent[1] == Resumption(r, e.specialist.result.data))
  {
    hide Specialists; hide QuestionOf; hide Resumed; hide Escalated;
  }

  lemma EventSends(o: Orch, e: Event, i: nat, a: nat)
    requires e.StatusChange? && At(o, e.taskId, i, a)
    ensures Handle(o, e).sent ==
            Change(o.graphs[i].tasks[a], DepthOf(o.depth, e.taskId), e.reg, e.newState, e.res, e.specialist,
                e.resume).sent
  {
    hide Change; hide FindGraph; hide IndexOfTask;
  }

  /** A specialist is asked exactly when a task with fewer than three ancestors asks and some
      registered profile can handle a consultation or an action request. */
  lemma SpecialistExactly(o: Orch, e: Event, i: nat, a: nat)
    requires Sound(o) && Asks(e) && At(o, e.taskId, i, a)
    ensures Handle(o, e).sent != [] <==>
              && Ancestors(o.graphs[i].tasks, a) < MAX_SPECIALIST_DEPTH
              && exists c ::
                   && c in e.reg
                   && (c.CanHandle("consultation", Wanted(e.res)) || c.CanHandle("action_request", Wanted(e.res)))
  {
    assert GraphSound(o.graphs[i], o.depth);
    assert DepthOf(o.depth, e.taskId) == Ancestors(o.graphs[i].tasks, a);
    hide *;
    SpecialistsFacts(e.reg, Wanted(e.res));
    EventSends(o, e, i, a);
    ChangeSends(o.graphs[i].tasks[a], DepthOf(o.depth, e.taskId), e);
  }

  /** A task with three or more ancestors that asks is sent nowhere: it waits for a human. */
  lemma DeepTaskEscalates(o: Orch, e: Event, i: nat, a: nat)
    requires Sound(o) && Asks(e) && At(o, e.taskId, i, a)
    requires Ancestors(o.graphs[i].tasks, a) >= MAX_SPECIALIST_DEPTH
    ensures var v := Handle(o, e); var r := v.orch.graphs[i].tasks[a];
      && v.sent == [] && r.status == InputRequired && r.escalation == Some(DepthReached(e.taskId))
  {
    assert GraphSound(o.graphs[i], o.depth);
    assert DepthOf(o.depth, e.taskId) == Ancestors(o.graphs[i].tasks, a);
    hide Specialists; hide GraphSound; hide Sound; hide FindGraph; hide IndexOfTask;
  }

  /** A status event sends none, one or two intents. The first asks the first registered profile
      that can handle a consultation, or failing that an action request. There is a second one
      exactly when the specialist returned a terminal result without escalation, a failed one
      included; it carries that result's data back to the profile of the task that asked. */
  lemma IntentsInOrder(o: Orch, e: Event, i: nat, a: nat)
    requires e.StatusChange? && At(o, e.taskId, i, a)
    ensures var sent := Handle(o, e).sent; var r := o.graphs[i].tasks[a];
      && |sent| <= 2
      && (sent != [] ==>
            && Asks(e) && sent[0].intentType == "consultation"
            && sent[0].contextId == r.contextId && sent[0].refs == [e.taskId] && sent[0].body == Ask(QuestionOf(e.res))
            && exists k: nat :: k < |e.reg| && BestSpecialist(e.reg, Wanted(e.res), k)
                           && e.reg[k].profileName == sent[0].targetProfile && e.reg[k].nodeId == sent[0].targetNode)
      && (|sent| == 2 <==> sent != [] && Answered(e.specialist))
      && (|sent| == 2 ==>
            && sent[1].intentType == "instruction"
            && sent[1].targetProfile == r.targetProfile && sent[1].targetNode == r.targetNode
            && sent[1].contextId == r.contextId && sent[1].refs == [e.taskId]
            && sent[1].body == Resume(e.specialist.result.data, e.taskId))
  {
    SpecialistsFacts(e.reg, Wanted(e.res));
    EventSends(o, e, i, a);
    ChangeSends(o.graphs[i].tasks[a], DepthOf(o.depth, e.taskId), e);
    hide Handle; hide Change; hide Specialists; hide FindGraph; hide IndexOfTask; hide QuestionOf;
  }

  /** A status change raises exactly when a specialist was asked and the dispatcher raised for it
      or for the resumption that followed; the record is then as the caller reported it. */
  lemma RaisesExactly(o: Orch, e: Event, i: nat, a: nat)
    requires e.StatusChange? && At(o, e.taskId, i, a)
    ensures var v, r := Handle(o, e), o.graphs[i].tasks[a];
      && (v.raised <==> v.sent != [] && (e.specialist.Raised? || (Answered(e.specialist) && e.resume.Raised?)))
      && (v.raised ==> v.orch.graphs[i].tasks[a] == Stamp(r, e.newState, e.res) && v.released.None?)
  {
    hide Specialists; hide FindGraph; hide IndexOfTask; hide QuestionOf; hide Resumed; hide Escalated;
    hide Consultation; hide Resumption; hide Stamp;
  }

  // ---- what stays ----

  /** A status change touches no other record, adds and removes none, keeps the depth table, and
      only appends to the messages and artifacts of its own record. */
  lemma OnlyOwnRecord(o: Orch, e: Event, i: nat, a: nat)
    requires e.StatusChange? && At(o, e.taskId, i, a)
    ensures var v := Handle(o, e).orch;
      && v.depth == o.depth && |v.graphs| == |o.graphs| && |v.graphs[i].tasks| == |o.graphs[i].tasks|
      && (forall k | 0 <= k < |o.graphs| && k != i :: v.graphs[k] == o.graphs[k])
      && v.graphs[i].contextId == o.graphs[i].contextId && v.graphs[i].rootTaskId == o.graphs[i].rootTaskId
      && (forall b | 0 <= b < |o.graphs[i].tasks| && b != a :: v.graphs[i].tasks[b] == o.graphs[i].tasks[b])
    ensures var r, q := o.graphs[i].tasks[a], Handle(o, e).orch.graphs[i].tasks[a];
      && q == r.(status := q.status, result := q.result, messages := r.messages + e.res.messages,
                 artifacts := r.artifacts + e.res.artifacts, escalation := q.escalation,
                 terminal := Terminal(e.res.status))
  {
    ChangeWrites(o.graphs[i].tasks[a], DepthOf(o.depth, e.taskId), e.reg, e.newState, e.res, e.specialist, e.resume);
    hide Change; hide FindGraph; hide IndexOfTask;
  }

  // ---- the status machine ----

  predicate Orderly(r: Record) {
    Listed(r.status) && (r.terminal ==> Terminal(r.status))
  }

  /** Callers report the state that the result carries. */
  predicate Matches(e: Event) {
    e.StatusChange? ==> e.newState == e.res.status
  }

  /** After a matching status change the record is orderly. Its status is terminal without the
      flag saying so exactly when the task was resumed and the resumption ended in a terminal
      status other than completed. */
  lemma MatchingChange(r: Record, depth: nat, reg: Registry, res: TaskResult, specialist: Reply, resume: Reply)
    ensures var out := Change(r, depth, reg, res.status, res, specialist, resume);
      && Orderly(out.record)
      && (Terminal(out.record.status) && !out.record.terminal <==>
            |out.sent| == 2 && resume.Returned? && Terminal(resume.result.status) && !resume.result.status.Completed?)
      && (out.record.status == Working <==>
            |out.sent| == 2 && resume.Returned? && (!Terminal(resume.result.status) || resume.result.status.Completed?))
  {
    hide QuestionOf; hide Specialists; hide Consultation; hide Resumption;
  }

  /** Whatever state is reported, the status stays in the lifecycle exactly when that state is in
      it. */
  lemma StatusListedExactly(r: Record, depth: nat, reg: Registry, newState: Status, res: TaskResult, specialist: Reply,
      resume: Reply)
    ensures Listed(Change(r, depth, reg, newState, res, specialist, resume).record.status) <==> Listed(newState)
  {
    hide QuestionOf; hide Specialists; hide Consultation; hide Resumption;
  }

  ghost predicate Everywhere(gs: seq<Graph>, p: Record -> bool) {
    forall i, a | 0 <= i < |gs| && 0 <= a < |gs[i].tasks| :: p(gs[i].tasks[a])
  }

  /** One event writes at most one record, new or changed. */
  lemma EventKeeps(o: Orch, e: Event, p: Record -> bool)
    requires Everywhere(o.graphs, p)
    requires e.StatusChange? && FindGraph(o.graphs, e.taskId).Some? ==> p(OutcomeOf(o, e).record)
    requires e.RegisterTask? ==>
               var gs := Opened(o.graphs, e.contextId, e.taskId);
               p(NewRecord(gs[GraphOf(gs, e.contextId).value].tasks, e.taskId, e.contextId, e.parent, e.profile,
                   e.node))
    ensures Everywhere(Handle(o, e).orch.graphs, p)
  {
    hide OutcomeOf; hide NewRecord; hide FindGraph; hide IndexOfTask;
  }

  /** Over every run in which callers pass matching states, disciplined or not, every record's
      status stays in the lifecycle and a terminal flag implies a terminal status. */
  lemma {:induction false} RecordsStayOrderly(o: Orch, events: seq<Event>)
    requires Everywhere(o.graphs, Orderly) && forall k | 0 <= k < |events| :: Matches(events[k])
    ensures Everywhere(Run(o, events).graphs, Orderly)
    decreases |events|
  {
    if events != [] {
      var e := events[0];
      if e.StatusChange? && FindGraph(o.graphs, e.taskId).Some? {
        var ts := o.graphs[FindGraph(o.graphs, e.taskId).value].tasks;
        MatchingChange(ts[IndexOfTask(ts, e.taskId).value], DepthOf(o.depth, e.taskId), e.reg, e.res, e.specialist,
            e.resume);
      }
      hide Change; hide Handle; hide IndexOfTask; hide FindGraph;
      EventKeeps(o, e, Orderly);
      RecordsStayOrderly(Handle(o, e).orch, events[1..]);
    }
  }

  /** The event resumed a task, and the resumption ended terminal but not completed. */
  predicate EndedByResumption(o: Orch, e: Event) {
    && e.StatusChange? && FindGraph(o.graphs, e.taskId).Some?
    && |OutcomeOf(o, e).sent| == 2 && e.resume.Returned?
    && Terminal(e.resume.result.status) && !e.resume.result.status.Completed?
  }

  /** The record is as such an event of the run left it. */
  ghost predicate LeftByResumption(o: Orch, events: seq<Event>, r: Record) {
    exists k | 0 <= k < |events| ::
      EndedByResumption(Run(o, events[..k]), events[k]) && r == OutcomeOf(Run(o, events[..k]), events[k]).record
  }

  /** A terminal status without the flag. */
  predicate Unflagged(r: Record) {
    Terminal(r.status) && !r.terminal
  }

  lemma {:induction false} RunSnoc(o: Orch, events: seq<Event>, e: Event)
    ensures Run(o, events + [e]) == Handle(Run(o, events), e).orch
    decreases |events|
  {
    hide Handle;
    if events == [] {
      assert (events + [e])[1..] == [];
    } else {
      assert (events + [e])[1..] == events[1..] + [e];
      RunSnoc(Handle(o, events[0]).orch, events[1..], e);
    }
  }

  lemma LeftStays(o: Orch, events: seq<Event>, e: Event, r: Record)
    requires LeftByResumption(o, events, r)
    ensures LeftByResumption(o, events + [e], r)
  {
    hide OutcomeOf; hide Run; hide FindGraph;
    var k :| 0 <= k < |events| && EndedByResumption(Run(o, events[..k]), events[k])
             && r == OutcomeOf(Run(o, events[..k]), events[k]).record;
    assert (events + [e])[..k] == events[..k] && (events + [e])[k] == events[k];
  }

  lemma LastLeaves(o: Orch, events: seq<Event>, e: Event)
    requires EndedByResumption(Run(o, events), e)
    ensures LeftByResumption(o, events + [e], OutcomeOf(Run(o, events), e).record)
  {
    hide EndedByResumption; hide OutcomeOf; hide Run;
    var k := |events|;
    assert (events + [e])[..k] == events && (events + [e])[k] == e;
  }

  /** What a matching status change leaves has a terminal status without the flag exactly when it
      ended by such a resumption. */
  lemma UnflaggedOutcome(o: Orch, e: Event)
    requires e.StatusChange? && Matches(e) && FindGraph(o.graphs, e.taskId).Some?
    ensures Unflagged(OutcomeOf(o, e).record) <==> EndedByResumption(o, e)
  {
    var ts := o.graphs[FindGraph(o.graphs, e.taskId).value].tasks;
    MatchingChange(ts[IndexOfTask(ts, e.taskId).value], DepthOf(o.depth, e.taskId), e.reg, e.res, e.specialist,
                   e.resume);
    hide Change; hide IndexOfTask; hide FindGraph;
  }

  /** Over every run with matching states: a record whose status is terminal while its flag does
      not say so is as a resumption that ended terminal but not completed left it. */
  lemma {:induction false} UnflaggedOnlyByResumption(events: seq<Event>)
    requires forall k | 0 <= k < |events| :: Matches(events[k])
    ensures Everywhere(Run(NOTHING, events).graphs, r => Unflagged(r) ==> LeftByResumption(NOTHING, events, r))
  {
    if events != [] {
      var front, e := events[..|events| - 1], events[|events| - 1];
      assert events == front + [e];
      UnflaggedOnlyByResumption(front);
      RunSnoc(NOTHING, front, e);
      var o := Run(NOTHING, front);
      var fits := (r: Record) => Unflagged(r) ==> LeftByResumption(NOTHING, events, r);
      hide Run; hide Handle; hide LeftByResumption; hide EndedByResumption; hide OutcomeOf;
      forall r | LeftByResumption(NOTHING, front, r) ensures LeftByResumption(NOTHING, events, r) {
        LeftStays(NOTHING, front, e, r);
      }
      if e.StatusChange? && FindGraph(o.graphs, e.taskId).Some? {
        UnflaggedOutcome(o, e);
        if EndedByResumption(o, e) { LastLeaves(NOTHING, front, e); }
      }
      NewRecordIsFlagged(o, e);
      hide Unflagged; hide NewRecord; hide FindGraph;
      EventKeeps(o, e, fits);
    }
  }

  lemma NewRecordIsFlagged(o: Orch, e: Event)
    ensures e.RegisterTask? ==>
      var gs := Opened(o.graphs, e.contextId, e.taskId);
      var tasks := gs[GraphOf(gs, e.contextId).value].tasks;
      !Unflagged(NewRecord(tasks, e.taskId, e.contextId, e.parent, e.profile, e.node))
  {
  }

  /** With matching states an event that sends intents releases no profile, and one that releases
      a profile releases the record's own. */
  lemma ReleasesOwnProfile(o: Orch, e: Event, i: nat, a: nat)
    requires e.StatusChange? && Matches(e)
    requires At(o, e.taskId, i, a)
    ensures Handle(o, e).released == if Terminal(e.res.status) then Some(o.graphs[i].tasks[a].targetProfile) else None
    ensures Handle(o, e).sent != [] ==> Handle(o, e).released.None?
  {
    hide Specialists; hide FindGraph; hide IndexOfTask; hide QuestionOf; hide Consultation; hide Resumption;
  }

  predicate Unassigned(r: Record) {
    r.targetProfile == ""
  }

  /** As the plugin is wired, tasks are registered without a profile. Then no record ever names
      one, and no status change frees a profile that a call may hold. */
  lemma {:induction false} UnassignedReleaseNobody(o: Orch, events: seq<Event>, last: Event)
    requires Everywhere(o.graphs, Unassigned)
    requires forall k | 0 <= k < |events| :: events[k].RegisterTask? ==> !Given(events[k].profile)
    ensures Everywhere(Run(o, events).graphs, Unassigned)
    ensures var released := Handle(Run(o, events), last).released; released.None? || released.value == ""
    decreases |events|
  {
    if events != [] {
      var e := events[0];
      if e.StatusChange? && FindGraph(o.graphs, e.taskId).Some? {
        ChangeKeepsProfile(o, e);
      }
      assert e.RegisterTask? ==>
        var gs := Opened(o.graphs, e.contextId, e.taskId);
        Unassigned(NewRecord(gs[GraphOf(gs, e.contextId).value].tasks, e.taskId, e.contextId, e.parent, e.profile,
            e.node));
      hide OutcomeOf; hide Handle; hide IndexOfTask; hide FindGraph; hide NewRecord;
      EventKeeps(o, e, Unassigned);
      UnassignedReleaseNobody(Handle(o, e).orch, events[1..], last);
    } else if last.StatusChange? && FindGraph(o.graphs, last.taskId).Some? {
      ChangeKeepsProfile(o, last);
      hide OutcomeOf; hide IndexOfTask; hide FindGraph;
    }
  }

  lemma ChangeKeepsProfile(o: Orch, e: Event)
    requires e.StatusChange? && FindGraph(o.graphs, e.taskId).Some?
    ensures var ts := o.graphs[FindGraph(o.graphs, e.taskId).value].tasks;
      OutcomeOf(o, e).record.targetProfile == ts[IndexOfTask(ts, e.taskId).value].targetProfile
  {
    var ts := o.graphs[FindGraph(o.graphs, e.taskId).value].tasks;
    ChangeWrites(ts[IndexOfTask(ts, e.taskId).value], DepthOf(o.depth, e.taskId), e.reg, e.newState, e.res,
        e.specialist, e.resume);
    hide Change; hide FindGraph; hide IndexOfTask;
  }

  // ---- the orchestrator object ----

  function Records(gs: seq<ConversationGraph>): set<TaskRecord>
    reads gs
  {
    set g, t | g in gs && t in g.tasks :: t
  }

  function GraphViews(gs: seq<ConversationGraph>): (r: seq<Graph>)
    reads gs, Records(gs)
    ensures |r| == |gs| && forall k | 0 <= k < |gs| :: r[k] == gs[k].View()
  {
    seq(|gs|, k requires 0 <= k < |gs| reads gs, Records(gs) => ViewAt(gs, k))
  }

  function ViewAt(gs: seq<ConversationGraph>, k: nat): (r: Graph)
    requires k < |gs|
    reads gs, Records(gs)
    ensures r == gs[k].View()
  {
    assert forall t | t in gs[k].tasks :: gs[k] in gs && t in Records(gs);
    gs[k].View()
  }

  lemma InRecords(gs: seq<ConversationGraph>, k: nat, b: nat)
    requires k < |gs| && b < |gs[k].tasks|
    ensures gs[k] in gs && gs[k].tasks[b] in gs[k].tasks && gs[k].tasks[b] in Records(gs)
  {
    assert gs[k] in gs && gs[k].tasks[b] in gs[k].tasks;
  }

  /** Contexts differ between graphs, and ids within a graph, so no two places share an object. */
  ghost predicate Separate(gs: seq<ConversationGraph>)
    reads gs
  {
    && (forall g | g in gs :: g.Valid())
    && (forall i, j | 0 <= i < j < |gs| :: gs[i].contextId != gs[j].contextId)
  }

  lemma NewGraphLast(gs: seq<ConversationGraph>, was: seq<Graph>, g: ConversationGraph)
    requires |was| == |gs| && forall k | 0 <= k < |gs| :: was[k] == gs[k].View()
    requires g.tasks == [] && Separate(gs) && g.Valid() && forall k | 0 <= k < |gs| :: gs[k].contextId != g.contextId
    ensures GraphViews(gs + [g]) == was + [g.View()] && Records(gs + [g]) == Records(gs) && Separate(gs + [g])
    ensures GraphOf(was + [g.View()], g.contextId) == Some(|was|)
  {
    forall k | 0 <= k <= |gs| ensures GraphViews(gs + [g])[k] == (was + [g.View()])[k] {
    }
    assert forall h | h in gs :: h in gs + [g];
    assert forall h | h in gs + [g] :: h in gs || h == g;
  }

  lemma PlacesDiffer(gs: seq<ConversationGraph>, i: nat, a: nat, k: nat, b: nat)
    requires Separate(gs) && i < |gs| && k < |gs| && a < |gs[i].tasks| && b < |gs[k].tasks| && (i != k || a != b)
    ensures gs[i].tasks[a] != gs[k].tasks[b]
  {
    assert gs[i] in gs && gs[k] in gs && gs[i].tasks[a] in gs[i].tasks && gs[k].tasks[b] in gs[k].tasks;
  }

  /** If every place but one shows what it showed before, the views differ in that place. */
  lemma OneRecordWritten(gs: seq<ConversationGraph>, was: seq<Graph>, i: nat, a: nat)
    requires |was| == |gs| && i < |gs| && a < |gs[i].tasks|
    requires forall k | 0 <= k < |gs| ::
               gs[k].View().(tasks := []) == was[k].(tasks := []) && |was[k].tasks| == |gs[k].tasks|
    requires forall k, b | 0 <= k < |gs| && 0 <= b < |gs[k].tasks| && (k != i || b != a) ::
               gs[k].tasks[b].View() == was[k].tasks[b]
    ensures GraphViews(gs) == SetTask(was, i, a, gs[i].tasks[a].View())
  {
    forall k | 0 <= k < |gs| ensures GraphViews(gs)[k] == SetTask(was, i, a, gs[i].tasks[a].View())[k] {
      assert gs[k].View().tasks == SetTask(was, i, a, gs[i].tasks[a].View())[k].tasks;
    }
  }

  lemma HandleNowhere(o: Orch, e: Event)
    requires e.StatusChange? && FindGraph(o.graphs, e.taskId).None?
    ensures Handle(o, e) == Effect(o, [], None, false)
  {
  }

  /** What handling a status change comes to, once the place of the task is known. */
  lemma HandleAt(o: Orch, e: Event, i: nat, a: nat)
    requires e.StatusChange? && At(o, e.taskId, i, a)
    ensures var out := Change(o.graphs[i].tasks[a], DepthOf(o.depth, e.taskId), e.reg, e.newState, e.res, e.specialist,
            e.resume);
      Handle(o, e) == Effect(Orch(SetTask(o.graphs, i, a, out.record), o.depth), out.sent,
                             if !out.raised && Terminal(e.res.status)
                             then Some(o.graphs[i].tasks[a].targetProfile) else None,
                             out.raised)
  {
    ChangeWrites(o.graphs[i].tasks[a], DepthOf(o.depth, e.taskId), e.reg, e.newState, e.res, e.specialist, e.resume);
    hide Change; hide FindGraph; hide IndexOfTask; hide SetTask;
  }

  /** A given value, or what it defaults to. */
  function Or(value: Option<string>, default: string): string {
    if Given(value) then value.value else default
  }

  lemma NewRecordFields(g: ConversationGraph, taskId: string, contextId: string, parent: Option<string>,
                        profile: Option<string>, node: Option<string>, p: TaskRecord?, refs: seq<string>)
    requires p == if Given(parent) then g.GetTask(parent.value) else null
    requires refs == if Given(parent) then [parent.value] else []
    ensures NewRecord(g.View().tasks, taskId, contextId, parent, profile, node) ==
            if p == null then
              Record(taskId, contextId, Submitted, "unknown", "local", Or(profile, ""), Or(node, ""), map[],
                     None, [], [], refs, None, false)
            else
              Record(taskId, contextId, Submitted, p.intentType, p.sourceNode, Or(profile, p.targetProfile),
                     Or(node, p.targetNode), p.payload, None, [], [], refs, None, false)
  {
    hide IndexOfTask;
  }

  /** Whether a specialist was asked, and what it replied. */
  datatype Recruitment = NotAsked(reason: Escalation) | Replied(reply: Reply)

  datatype TreeAnswer = UnknownContext | NoRoot | TreeOf(tree: Tree)

  ghost predicate TreeCanBeBuilt(gs: seq<Graph>, contextId: string) {
    GraphOf(gs, contextId).Some? ==> Buildable(gs[GraphOf(gs, contextId).value])
  }

  /** What the tree of a context is reported as. */
  ghost predicate IsAnswer(gs: seq<Graph>, contextId: string, answer: TreeAnswer) {
    var at := GraphOf(gs, contextId);
    if at.None? then answer == UnknownContext
    else if answer.TreeOf? then IsTreeOf(gs[at.value], Some(answer.tree))
    else answer == NoRoot && IsTreeOf(gs[at.value], None)
  }

  class OrchestratorImpl {
    const fc: FleetController
    var graphs: seq<ConversationGraph>
    var depth: map<string, nat>
    var sent: seq<Sent>

    ghost predicate Valid()
      reads this, graphs
    {
      Separate(graphs)
    }

    function View(): Orch
      reads this, graphs, Records(graphs)
    {
      Orch(GraphViews(graphs), depth)
    }

    constructor (fc: FleetController)
      ensures Valid() && this.fc == fc && View() == NOTHING && sent == []
    {
      this.fc, graphs, depth, sent := fc, [], map[], [];
    }

    /** The graph of a context, which is made if there is none. */
    method OpenGraph(contextId: string, taskId: string) returns (g: ConversationGraph, ghost at: nat)
      requires Valid()
      modifies `graphs
      ensures Valid() && at < |graphs| && g == graphs[at]
      ensures View() == Orch(Opened(old(View()).graphs, contextId, taskId), old(View()).depth)
      ensures GraphOf(View().graphs, contextId) == Some(at) && View().graphs[at] == g.View() && g.contextId == contextId
      ensures g in graphs && forall h | h in graphs :: h in old(graphs) || fresh(h)
      ensures Records(graphs) == old(Records(graphs))
    {
      var found := GraphOf(GraphViews(graphs), contextId);
      if found.Some? {
        g, at := graphs[found.value], found.value;
        return;
      }
      g, at := CreateGraph(contextId, taskId);
    }

    method CreateGraph(contextId: string, taskId: string) returns (g: ConversationGraph, ghost at: nat)
      requires Valid() && GraphOf(View().graphs, contextId).None?
      modifies `graphs
      ensures Valid() && at < |graphs| && g == graphs[at]
      ensures View() == Orch(old(View()).graphs + [Graph(contextId, taskId, [])], old(View()).depth)
      ensures GraphOf(View().graphs, contextId) == Some(at) && View().graphs[at] == g.View() && g.contextId == contextId
      ensures g in graphs && forall h | h in graphs :: h in old(graphs) || fresh(h)
      ensures Records(graphs) == old(Records(graphs))
    {
      assert GraphOf(View().graphs, contextId).None?;
      NoneIsFresh(contextId);
      hide GraphOf; hide GraphViews; hide Records; hide ViewAt;
      g := new ConversationGraph(contextId, taskId);
      at := AppendGraph(g);
    }

    lemma NoneIsFresh(contextId: string)
      requires GraphOf(View().graphs, contextId).None?
      ensures forall k | 0 <= k < |graphs| :: graphs[k].contextId != contextId
    {
      forall k | 0 <= k < |graphs| ensures graphs[k].contextId != contextId {
        ViewAtIs(k);
      }
    }

    /** A new graph comes last. */
    method AppendGraph(g: ConversationGraph) returns (ghost at: nat)
      requires Valid() && g.Valid() && g.tasks == []
      requires forall k | 0 <= k < |graphs| :: graphs[k].contextId != g.contextId
      modifies `graphs
      ensures Valid() && graphs == old(graphs) + [g] && at == |old(graphs)|
      ensures View() == Orch(old(View()).graphs + [Graph(g.contextId, g.rootTaskId, [])], old(View()).depth)
      ensures GraphOf(View().graphs, g.contextId) == Some(at) && at < |View().graphs| && View().graphs[at] == g.View()
      ensures Records(graphs) == old(Records(graphs))
    {
      ghost var was := GraphViews(graphs);
      NewGraphLast(graphs, was, g);
      assert g.View() == Graph(g.contextId, g.rootTaskId, []);
      hide GraphOf; hide GraphViews; hide Records; hide Separate;
      graphs := graphs + [g];
      at := |was|;
    }

    /** A new record for a task of this graph. */
    method MakeRecord(g: ConversationGraph, taskId: string, contextId: string, parent: Option<string>,
                      profile: Option<string>, node: Option<string>) returns (record: TaskRecord)
      ensures View() == old(View()) && Valid() == old(Valid())
      ensures fresh(record) && record.contextId == contextId && record !in Records(graphs)
      ensures record.View() == NewRecord(g.View().tasks, taskId, contextId, parent, profile, node)
    {
      var p := if Given(parent) then g.GetTask(parent.value) else null;
      var refs := if Given(parent) then [parent.value] else [];
      NewRecordFields(g, taskId, contextId, parent, profile, node, p, refs);
      hide NewRecord; hide Or; hide Given;
      if p == null {
        record := AllocateRecord(taskId, contextId, "unknown", "local", Or(profile, ""), Or(node, ""), map[], refs);
      } else {
        record := AllocateRecord(taskId, contextId, p.intentType, p.sourceNode, Or(profile, p.targetProfile),
                                 Or(node, p.targetNode), p.payload, refs);
      }
    }

    /** A new record leaves the graphs as they were. */
    method AllocateRecord(taskId: string, contextId: string, intentType: string, sourceNode: string,
                          targetProfile: string, targetNode: string, payload: Payload, refs: seq<string>)
      returns (record: TaskRecord)
      ensures View() == old(View()) && Valid() == old(Valid())
      ensures fresh(record) && record.contextId == contextId && record !in Records(graphs)
      ensures record.View() == Record(taskId, contextId, Submitted, intentType, sourceNode, targetProfile, targetNode,
                                      payload, None, [], [], refs, None, false)
    {
      record := new TaskRecord(taskId, contextId, intentType, sourceNode, targetProfile, targetNode, payload, refs);
    }

    /** The record joins the graph at position `at`. */
    method Attach(ghost at: nat, g: ConversationGraph, record: TaskRecord)
      requires Valid() && at < |graphs| && g == graphs[at] && record.contextId == g.contextId
      modifies g`tasks
      ensures Valid()
      ensures var o := old(View());
        && at < |o.graphs|
        && View() == Orch(o.graphs[at := o.graphs[at].(tasks := PutTask(o.graphs[at].tasks, record.View()))], o.depth)
      ensures forall t | t in Records(graphs) :: t in old(Records(graphs)) || t == record
    {
      ghost var gs := GraphViews(graphs);
      assert forall k | 0 <= k < |graphs| ::
          gs[k] == graphs[k].View() && graphs[k] in graphs && (k != at ==> graphs[k] != g);
      var added := g.AddTask(record);
      hide PutTask;
      forall k | 0 <= k < |graphs| && k != at ensures graphs[k].View() == gs[k] {
        assert graphs[k] in graphs;
      }
    }

    method AddRecord(ghost at: nat, g: ConversationGraph, taskId: string, contextId: string, parent: Option<string>,
                     profile: Option<string>, node: Option<string>)
      requires Valid() && at < |graphs| && g == graphs[at] && contextId == g.contextId
      requires at < |View().graphs| && View().graphs[at] == g.View()
      modifies g`tasks
      ensures Valid()
      ensures var o := old(View()); var ts := o.graphs[at].tasks;
        var r := NewRecord(ts, taskId, contextId, parent, profile, node);
        View() == Orch(o.graphs[at := o.graphs[at].(tasks := PutTask(ts, r))], o.depth)
      ensures forall t | t in Records(graphs) :: t in old(Records(graphs)) || fresh(t)
    {
      hide *;
      var record := MakeRecord(g, taskId, contextId, parent, profile, node);
      Attach(at, g, record);
    }

    method RegisterTask(taskId: string, contextId: string, parent: Option<string>, profile: Option<string>,
        node: Option<string>)
      requires Valid()
      modifies `graphs, `depth, graphs
      ensures Valid()
      ensures View() == Register(old(View()), taskId, contextId, parent, profile, node)
      ensures forall g | g in graphs :: g in old(graphs) || fresh(g)
      ensures forall t | t in Records(graphs) :: t in old(Records(graphs)) || fresh(t)
    {
      ghost var o, e := View(), Event.RegisterTask(taskId, contextId, parent, profile, node);
      hide *;
      var g, at := OpenGraph(contextId, taskId);
      ghost var gs := View().graphs;
      RegisterUnfolds(o, e, gs, at, NewRecord(gs[at].tasks, taskId, contextId, parent, profile, node));
      AddRecord(at, g, taskId, contextId, parent, profile, node);
      NoteDepth(taskId, parent);
    }

    method NoteDepth(taskId: string, parent: Option<string>)
      modifies `depth
      ensures Valid() == old(Valid()) && Records(graphs) == old(Records(graphs))
      ensures var o := old(View());
        View() == Orch(o.graphs,
                       if Given(parent) then o.depth[taskId := DepthOf(o.depth, parent.value) + 1] else o.depth)
    {
      hide GraphViews; hide Records; hide DepthOf;
      if Given(parent) {
        depth := depth[taskId := DepthOf(depth, parent.value) + 1];
      }
    }

    method FindGraphForTask(id: string) returns (at: Option<nat>)
      ensures at == FindGraph(GraphViews(graphs), id)
    {
      ghost var gs := GraphViews(graphs);
      hide FindGraph; hide IndexOfTask;
      for k := 0 to |graphs|
        invariant forall j | 0 <= j < k :: !Has(gs[j].tasks, id)
      {
        assert graphs[k].View() == gs[k];
        var t := graphs[k].GetTask(id);
        if t != null {
          return Some(k);
        }
      }
      return None;
    }

    /** `specialist` is what the dispatcher will reply if it is asked. */
    method RecruitSpecialist(question: Question, contextId: string, taskId: string, wanted: seq<string>,
        specialist: Reply)
      returns (r: Recruitment)
      modifies `sent
      ensures var found := Specialists(fc.capabilities, wanted);
        if DepthOf(depth, taskId) >= MAX_SPECIALIST_DEPTH then r == NotAsked(DepthReached(taskId)) && sent == old(sent)
        else if found == [] then r == NotAsked(NobodyFound(taskId, question)) && sent == old(sent)
        else r == Replied(specialist) &&
             sent == old(sent) + [Sent("consultation", found[0].profileName, found[0].nodeId, contextId, [taskId],
                                       Ask(question), wanted)]
    {
      if DepthOf(depth, taskId) >= MAX_SPECIALIST_DEPTH {
        return NotAsked(DepthReached(taskId));
      }
      var candidates := fc.Discover("consultation", wanted);
      if candidates == [] {
        candidates := fc.Discover("action_request", wanted);
      }
      if candidates == [] {
        return NotAsked(NobodyFound(taskId, question));
      }
      var c := candidates[0];
      sent := sent + [Sent("consultation", c.profileName, c.nodeId, contextId, [taskId], Ask(question), wanted)];
      return Replied(specialist);
    }

    /** `resume` is what the dispatcher will reply. */
    method ResumeTask(record: TaskRecord, answer: Option<Payload>, resume: Reply) returns (raised: bool)
      modifies record, `sent
      ensures raised == resume.Raised? && sent == old(sent) + [Resumption(old(record.View()), answer)]
      ensures record.View() == if resume.Raised? then old(record.View()) else Resumed(old(record.View()), resume.result)
    {
      sent := sent + [Sent("instruction", record.targetProfile, record.targetNode, record.contextId, [record.taskId],
                           Resume(answer, record.taskId), [])];
      if resume.Raised? {
        return true;
      }
      record.status := Working;
      if Terminal(resume.result.status) && resume.result.status != Completed {
        record.status, record.result := resume.result.status, resume.result.data;
      }
      return false;
    }

    method HandleInputRequired(record: TaskRecord, res: TaskResult, specialist: Reply, resume: Reply)
        returns (raised: bool)
      modifies record, `sent
      ensures var out := HandleInput(old(record.View()), DepthOf(depth, record.taskId), fc.capabilities, res,
              specialist, resume);
        record.View() == out.record && sent == old(sent) + out.sent && raised == out.raised
    {
      hide Specialists; hide QuestionOf; hide Resumed; hide Wanted;
      var recruited := RecruitSpecialist(QuestionOf(res), record.contextId, record.taskId, Wanted(res), specialist);
      if recruited.Replied? && recruited.reply.Raised? {
        return true;
      }
      if recruited.NotAsked? {
        record.escalation, record.status := Some(recruited.reason), InputRequired;
      } else if Terminal(recruited.reply.result.status) && !recruited.reply.result.requiresEscalation {
        raised := ResumeTask(record, recruited.reply.result.data, resume);
        return;
      } else if recruited.reply.result.requiresEscalation {
        record.escalation, record.status := Some(Told(recruited.reply.result.escalationReason)), InputRequired;
      } else {
        record.status, record.result := recruited.reply.result.status, recruited.reply.result.data;
      }
      return false;
    }

    method StampRecord(record: TaskRecord, newState: Status, res: TaskResult)
      modifies record
      ensures record.View() == Stamp(old(record.View()), newState, res)
    {
      record.status := newState;
      if res.data.Some? {
        record.result := res.data;
      }
      record.messages := record.messages + res.messages;
      record.artifacts := record.artifacts + res.artifacts;
      record.terminal := Terminal(res.status);
    }

    method ApplyChange(record: TaskRecord, newState: Status, res: TaskResult, specialist: Reply, resume: Reply)
        returns (raised: bool)
      modifies record, `sent
      ensures var out := Change(old(record.View()), DepthOf(depth, record.taskId), fc.capabilities, newState, res,
              specialist, resume);
        record.View() == out.record && sent == old(sent) + out.sent && raised == out.raised
    {
      StampRecord(record, newState, res);
      hide Stamp; hide HandleInput;
      raised := false;
      if newState == InputRequired && !res.requiresEscalation {
        raised := HandleInputRequired(record, res, specialist, resume);
      }
    }

    /** The record of a task, and where it is. */
    method FindRecord(id: string) returns (record: TaskRecord?, ghost i: nat, ghost a: nat)
      ensures View() == old(View()) && Valid() == old(Valid())
      ensures record == null ==> FindGraph(View().graphs, id).None?
      ensures record != null ==>
        && At(View(), id, i, a)
        && i < |graphs| && a < |graphs[i].tasks| && record == graphs[i].tasks[a]
        && View().graphs[i].tasks[a] == record.View()
        && record.taskId == id && record.targetProfile == View().graphs[i].tasks[a].targetProfile
        && record in Records(graphs)
    {
      hide FindGraph; hide IndexOfTask; hide Separate;
      var at := FindGraphForTask(id);
      i, a := 0, 0;
      if at.None? {
        return null, 0, 0;
      }
      i := at.value;
      ViewAtIs(i);
      record := graphs[at.value].GetTask(id);
      hide *;
      a := IndexOfTask(View().graphs[i].tasks, id).value;
      InRecords(graphs, i, a);
    }

    lemma ViewAtIs(k: nat)
      requires k < |graphs|
      ensures k < |View().graphs| && View().graphs[k] == graphs[k].View()
    {
    }

    /** The change of the record in place `a` of graph `i`, as the views show it. */
    method ApplyAt(ghost i: nat, ghost a: nat, record: TaskRecord, newState: Status, res: TaskResult,
        specialist: Reply, resume: Reply)
      returns (raised: bool)
      requires Valid() && i < |graphs| && a < |graphs[i].tasks| && record == graphs[i].tasks[a]
      modifies record, `sent
      ensures Valid()
      ensures var out := Change(old(record.View()), DepthOf(depth, record.taskId), fc.capabilities, newState, res,
              specialist, resume);
        && View() == Orch(SetTask(old(View()).graphs, i, a, out.record), old(View()).depth)
        && sent == old(sent) + out.sent && raised == out.raised
    {
      ghost var gs := GraphViews(graphs);
      assert forall k | 0 <= k < |graphs| :: gs[k] == graphs[k].View();
      raised := ApplyChange(record, newState, res, specialist, resume);
      hide Change; hide SetTask;
      assert Separate(graphs);
      forall k, b | 0 <= k < |graphs| && 0 <= b < |graphs[k].tasks| && (k != i || b != a)
        ensures graphs[k].tasks[b].View() == gs[k].tasks[b]
      {
        PlacesDiffer(graphs, i, a, k, b);
      }
      OneRecordWritten(graphs, gs, i, a);
    }

    /** `specialist` and `resume` are what the dispatcher will reply if it is asked. */
    method OnStatusChange(id: string, newState: Status, res: TaskResult, specialist: Reply, resume: Reply)
        returns (raised: bool)
      requires Valid()
      modifies `sent, Records(graphs), fc`busy
      ensures Valid()
      ensures var eff := Handle(old(View()), StatusChange(id, old(fc.capabilities), newState, res, specialist, resume));
        && View() == eff.orch && sent == old(sent) + eff.sent && raised == eff.raised
        && fc.busy == if eff.released.Some? then old(fc.busy) - {eff.released.value} else old(fc.busy)
    {
      ghost var o, e := View(), StatusChange(id, fc.capabilities, newState, res, specialist, resume);
      hide *;
      var record, i, a := FindRecord(id);
      if record == null {
        HandleNowhere(o, e);
        return false;
      }
      raised := ChangeFound(o, i, a, record, newState, res, specialist, resume);
    }

    /** The rest of a status change, for a task that was found. */
    method ChangeFound(ghost o: Orch, ghost i: nat, ghost a: nat, record: TaskRecord, newState: Status, res: TaskResult,
                       specialist: Reply, resume: Reply) returns (raised: bool)
      requires Valid() && o == View() && At(o, record.taskId, i, a)
      requires i < |graphs| && a < |graphs[i].tasks| && record == graphs[i].tasks[a]
               && o.graphs[i].tasks[a] == record.View()
      modifies record, `sent, fc`busy
      ensures Valid()
      ensures var e := StatusChange(record.taskId, old(fc.capabilities), newState, res, specialist, resume);
        var eff := Handle(o, e);
        && View() == eff.orch && sent == old(sent) + eff.sent && raised == eff.raised
        && fc.busy == if eff.released.Some? then old(fc.busy) - {eff.released.value} else old(fc.busy)
    {
      assert record.targetProfile == record.View().targetProfile && o.depth == depth;
      hide *;
      HandleAt(o, StatusChange(record.taskId, fc.capabilities, newState, res, specialist, resume), i, a);
      raised := ApplyAt(i, a, record, newState, res, specialist, resume);
      if !raised && Terminal(res.status) {
        FreeProfile(record.targetProfile);
      }
    }

    /** The fleet controller shares no state with the graphs. */
    method FreeProfile(profileName: string)
      modifies fc`busy
      ensures fc.busy == old(fc.busy) - {profileName} && View() == old(View())
      ensures Valid() == old(Valid())
    {
      fc.Release(profileName);
    }

    /** The call ends if building the tree of that context does. */
    method GetConversationGraph(contextId: string) returns (answer: TreeAnswer)
      requires TreeCanBeBuilt(View().graphs, contextId)
      ensures IsAnswer(View().graphs, contextId, answer)
    {
      ghost var gs := View().graphs;
      var at := GraphOf(GraphViews(graphs), contextId);
      if at.None? {
        return UnknownContext;
      }
      ghost var g := graphs[at.value].View();
      assert gs[at.value] == g;
      hide Buildable; hide IsTreeOf; hide GraphOf;
      var tree := graphs[at.value].GetTree();
      assert graphs[at.value].View() == g && View().graphs == gs;
      assert IsTreeOf(g, tree);
      answer := if tree.None? then NoRoot else TreeOf(tree.value);
    }
  }
}
