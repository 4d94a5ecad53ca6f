/** What a registration and a status change do, field by field: the record that is registered, the
    question that is asked and of whom, and what the record that asked becomes. */
module StatusChanges {
  import opened Options
  import opened Fleet
  import opened Tasks
  import opened Conversation
  import opened Orchestrator
  import opened RouteAnswers

  // ---- registration ----

  /** A fresh record: what it is not given it takes from its parent, if there is one. */
  predicate Inherits(r: Record, e: Event, parent: Option<Record>)
    requires e.RegisterTask?
  {
    && r.taskId == e.taskId && r.contextId == e.contextId
    && r.status == Submitted && !r.terminal && r.result == None && r.escalation == None
    && r.messages == [] && r.artifacts == []
    && r.refs == (if e.parent.Some? && e.parent.value != "" then [e.parent.value] else [])
    && r.intentType == (if parent.Some? then parent.value.intentType else "unknown")
    && r.sourceNode == (if parent.Some? then parent.value.sourceNode else "local")
    && r.payload == (if parent.Some? then parent.value.payload else map[])
    && (e.profile.Some? && e.profile.value != "" ==> r.targetProfile == e.profile.value)
    && (e.profile.None? || e.profile.value == "" ==>
          r.targetProfile == if parent.Some? then parent.value.targetProfile else "")
    && (e.node.Some? && e.node.value != "" ==> r.targetNode == e.node.value)
    && (e.node.None? || e.node.value == "" ==> r.targetNode == if parent.Some? then parent.value.targetNode else "")
  }

  /** The record with this id among these, if there is one. */
  ghost predicate IsRecordOf(ts: seq<Record>, id: string, found: Option<Record>) {
    if found.Some? then found.value in ts && found.value.taskId == id else forall r | r in ts :: r.taskId != id
  }

  /** The parent is looked up among these tasks. */
  ghost predicate IsParent(ts: seq<Record>, parent: Option<string>, found: Option<Record>) {
    if parent.Some? && parent.value != "" then IsRecordOf(ts, parent.value, found) else found.None?
  }

  /** The tasks with this record in the place of the one with its id, or at the end. */
  ghost predicate IsPut(ts: seq<Record>, r: Record, us: seq<Record>) {
    || (us == ts + [r] && forall q | q in ts :: q.taskId != r.taskId)
    || (exists k | 0 <= k < |ts| :: ts[k].taskId == r.taskId && us == ts[k := r])
  }

  lemma NewRecordInherits(ts: seq<Record>, e: Event)
    requires e.RegisterTask?
    ensures exists p :: IsParent(ts, e.parent, p)
                        && Inherits(NewRecord(ts, e.taskId, e.contextId, e.parent, e.profile, e.node), e, p)
  {
    var at := if e.parent.Some? && e.parent.value != "" then IndexOfTask(ts, e.parent.value) else None;
    var p := if at.Some? then Some(ts[at.value]) else None;
    assert IsParent(ts, e.parent, p) by { hide IndexOfTask; }
    assert Inherits(NewRecord(ts, e.taskId, e.contextId, e.parent, e.profile, e.node), e, p) by { hide IndexOfTask; }
  }

  lemma PutIsPut(ts: seq<Record>, r: Record)
    ensures IsPut(ts, r, PutTask(ts, r))
  {
    hide IndexOfTask;
  }

  /** Any registration, disciplined or not: the conversation is opened with this task as its root if
      it is new, no other conversation changes, nothing is sent or released, and the task is one
      deeper than its parent. */
  lemma RegistersExactly(o: Orch, e: Event)
    requires e.RegisterTask?
    ensures var v := Handle(o, e).orch; var at := GraphOf(v.graphs, e.contextId);
      at.Some? && (var i := at.value;
        && (forall k | 0 <= k < |v.graphs| && k != i :: k < |o.graphs| && v.graphs[k] == o.graphs[k])
        && v.graphs[i].contextId == e.contextId
        && (if forall g | g in o.graphs :: g.contextId != e.contextId
            then |v.graphs| == |o.graphs| + 1 && i == |o.graphs| && v.graphs[i].rootTaskId == e.taskId
            else |v.graphs| == |o.graphs| && v.graphs[i].rootTaskId == o.graphs[i].rootTaskId))
    ensures Handle(o, e).orch.depth ==
            if e.parent.Some? && e.parent.value != "" then
              o.depth[e.taskId := (if e.parent.value in o.depth then o.depth[e.parent.value] else 0) + 1]
            else o.depth
    ensures var f := Handle(o, e); f.sent == [] && f.released.None? && !f.raised
  {
    var gs := Opened(o.graphs, e.contextId, e.taskId);
    var i := GraphOf(gs, e.contextId).value;
    var r := NewRecord(gs[i].tasks, e.taskId, e.contextId, e.parent, e.profile, e.node);
    hide *;
    RegisterUnfolds(o, e, gs, i, r);
    OpenedExactly(o.graphs, e.contextId, e.taskId);
    WrittenGraph(gs, i, PutTask(gs[i].tasks, r));
    RegisterIsQuiet(o, e);
  }

  lemma RegisterIsQuiet(o: Orch, e: Event)
    requires e.RegisterTask?
    ensures var f := Handle(o, e); f.sent == [] && f.released.None? && !f.raised
    ensures Given(e.parent) <==> e.parent.Some? && e.parent.value != ""
    ensures forall id: string :: DepthOf(o.depth, id) == if id in o.depth then o.depth[id] else 0
  {
    hide Register;
  }

  /** These tasks become those by registering a record that inherits from its parent among them. */
  ghost predicate Registered(ts: seq<Record>, e: Event, us: seq<Record>)
    requires e.RegisterTask?
  {
    exists p, r :: IsParent(ts, e.parent, p) && Inherits(r, e, p) && IsPut(ts, r, us)
  }

  lemma NewIsRegistered(ts: seq<Record>, e: Event)
    requires e.RegisterTask?
    ensures Registered(ts, e, PutTask(ts, NewRecord(ts, e.taskId, e.contextId, e.parent, e.profile, e.node)))
  {
    var r := NewRecord(ts, e.taskId, e.contextId, e.parent, e.profile, e.node);
    NewRecordInherits(ts, e);
    PutIsPut(ts, r);
    hide IsParent; hide Inherits; hide IsPut; hide NewRecord; hide PutTask;
    var p :| IsParent(ts, e.parent, p) && Inherits(r, e, p);
  }

  /** What it registers: a record that inherits from its parent in the same conversation, in the
      place of the one with its id, or at the end. */
  lemma RegisteredRecord(o: Orch, e: Event)
    requires e.RegisterTask?
    ensures var v := Handle(o, e).orch; var at := GraphOf(v.graphs, e.contextId);
      at.Some? && (var ts := if at.value < |o.graphs| then o.graphs[at.value].tasks else [];
                   Registered(ts, e, v.graphs[at.value].tasks))
  {
    var gs := Opened(o.graphs, e.contextId, e.taskId);
    var i := GraphOf(gs, e.contextId).value;
    var ts := gs[i].tasks;
    var r := NewRecord(ts, e.taskId, e.contextId, e.parent, e.profile, e.node);
    hide *;
    RegisterUnfolds(o, e, gs, i, r);
    NewIsRegistered(ts, e);
    OpenedExactly(o.graphs, e.contextId, e.taskId);
    WrittenGraph(gs, i, PutTask(ts, r));
  }

  lemma OpenedExactly(gs: seq<Graph>, contextId: string, taskId: string)
    ensures var hs := Opened(gs, contextId, taskId); var i := GraphOf(hs, contextId).value;
      if forall g | g in gs :: g.contextId != contextId
      then hs == gs + [Graph(contextId, taskId, [])] && i == |gs|
      else hs == gs && i < |gs|
  {
    hide GraphOf;
    if i :| 0 <= i < |gs| && gs[i].contextId == contextId {
      assert gs[i] in gs;
    }
  }

  /** Writing the tasks of a graph moves no graph. */
  lemma {:induction false} WrittenGraph(gs: seq<Graph>, i: nat, us: seq<Record>)
    requires i < |gs|
    ensures GraphOf(gs[i := gs[i].(tasks := us)], gs[i].contextId) == GraphOf(gs, gs[i].contextId)
  {
    SameContexts(gs, gs[i := gs[i].(tasks := us)], gs[i].contextId);
  }

  lemma {:induction false} SameContexts(gs: seq<Graph>, hs: seq<Graph>, contextId: string)
    requires |gs| == |hs| && forall k | 0 <= k < |gs| :: gs[k].contextId == hs[k].contextId
    ensures GraphOf(gs, contextId) == GraphOf(hs, contextId)
  {
    if gs != [] {
      SameContexts(gs[..|gs| - 1], hs[..|hs| - 1], contextId);
    }
  }

  // ---- the question ----

  /** The text asked for this data: its question, or failing that its message, or failing that the
      data as a whole; nothing if there is no data. */
  predicate Asked(data: Option<Payload>, q: Question) {
    match data
    case None => q == Said("")
    case Some(d) =>
      if d == map[] then q == Said("")
      else if "question" in d && d["question"] != "" then q == Said(d["question"])
      else if "message" in d then q == Said(d["message"])
      else q == Rendered(d)
  }

  function TagsOf(res: TaskResult): seq<string> {
    match res.tags
    case None => []
    case Some(tags) => tags
  }

  /** The first profile that offers a consultation or, if none does, the first that offers an action
      request. */
  predicate FirstToAsk(reg: Registry, tags: seq<string>, k: nat) {
    && k < |reg|
    && (|| (Offers(reg[k], "consultation", tags) && forall j | 0 <= j < k :: !Offers(reg[j], "consultation", tags))
        || (&& (forall c | c in reg :: !Offers(c, "consultation", tags))
            && Offers(reg[k], "action_request", tags)
            && forall j | 0 <= j < k :: !Offers(reg[j], "action_request", tags)))
  }

  lemma BestIsFirst(reg: Registry, tags: seq<string>, k: nat)
    requires k < |reg| && BestSpecialist(reg, tags, k)
    ensures FirstToAsk(reg, tags, k)
  {
    assert forall c: Capability, t :: c.CanHandle(t, tags) == Offers(c, t, tags);
    hide Offers;
  }

  /** The task asks: the state reported is `input_required` and nobody is to be escalated to. */
  predicate WantsInput(e: Event) {
    e.StatusChange? && e.newState == InputRequired && !e.res.requiresEscalation
  }

  /** A specialist is asked exactly when a task asks at a depth below three and some profile offers a
      consultation or an action request. It is the first one that does, it is asked the question that
      the result carries, and its tags are the result's. */
  lemma SpecialistAsked(o: Orch, e: Event, i: nat, a: nat)
    requires e.StatusChange? && At(o, e.taskId, i, a)
    ensures var sent, tags, r := Handle(o, e).sent, TagsOf(e.res), o.graphs[i].tasks[a];
      && (sent != [] <==>
            && WantsInput(e) && (e.taskId in o.depth ==> o.depth[e.taskId] < 3)
            && exists c :: c in e.reg && (Offers(c, "consultation", tags) || Offers(c, "action_request", tags)))
      && (sent != [] ==>
            && sent[0].intentType == "consultation" && sent[0].contextId == r.contextId && sent[0].refs == [e.taskId]
            && sent[0].body.Ask? && Asked(e.res.data, sent[0].body.question) && sent[0].tags == tags
            && exists k: nat :: FirstToAsk(e.reg, tags, k)
                           && sent[0].targetProfile == e.reg[k].profileName && sent[0].targetNode == e.reg[k].nodeId)
  {
    var tags := TagsOf(e.res);
    SpecialistsFacts(e.reg, Wanted(e.res));
    EventSends(o, e, i, a);
    ChangeSends(o.graphs[i].tasks[a], DepthOf(o.depth, e.taskId), e);
    assert Wanted(e.res) == tags && Asked(e.res.data, QuestionOf(e.res));
    assert forall c: Capability, t :: c.CanHandle(t, tags) == Offers(c, t, tags);
    var found := Specialists(e.reg, tags);
    if found != [] {
      var k: nat :| k < |e.reg| && BestSpecialist(e.reg, tags, k) && e.reg[k] == found[0];
      BestIsFirst(e.reg, tags, k);
    }
    hide Handle; hide Change; hide Specialists; hide FindGraph; hide IndexOfTask; hide QuestionOf; hide Asked;
    hide BestSpecialist; hide FirstToAsk; hide Offers;
  }

  // ---- what the record becomes ----

  predicate Finished(s: Status) {
    s in {Completed, Failed, Cancelled, Rejected}
  }

  /** The specialist's reply answers the question: it is over, and nobody is to be escalated to. */
  predicate Replies(reply: Reply) {
    reply.Returned? && Finished(reply.result.status) && !reply.result.requiresEscalation
  }

  /** What is left of the record's status, result and escalation. */
  predicate Becomes(q: Record, status: Status, result: Option<Payload>, escalation: Option<Escalation>) {
    q.status == status && q.result == result && q.escalation == escalation
  }

  /** A status change that asks nobody leaves the state that was reported, unless the task asked in
      vain: then it waits for a human, because it is too deep or because nobody was found. */
  lemma UnaskedBecomes(o: Orch, e: Event, i: nat, a: nat)
    requires e.StatusChange? && At(o, e.taskId, i, a) && Handle(o, e).sent == []
    ensures var r, q := o.graphs[i].tasks[a], Handle(o, e).orch.graphs[i].tasks[a];
      var result := if e.res.data.Some? then e.res.data else r.result;
      if !WantsInput(e) then Becomes(q, e.newState, result, r.escalation)
      else if e.taskId in o.depth && o.depth[e.taskId] >= 3 then
        Becomes(q, InputRequired, result, Some(DepthReached(e.taskId)))
      else exists question | Asked(e.res.data, question) ::
        Becomes(q, InputRequired, result, Some(NobodyFound(e.taskId, question)))
  {
    assert Asked(e.res.data, QuestionOf(e.res));
    hide Specialists; hide FindGraph; hide IndexOfTask; hide QuestionOf; hide Consultation; hide Resumption;
  }

  /** A status change that asks a specialist. If the specialist or the resumption raises, the record
      stays as it was reported. An answer resumes the task, which then works, or is as the
      resumption left it if that ended otherwise than completed; a specialist that escalates makes the
      task wait for a human; and any other reply becomes that of the task. */
  lemma AskedBecomes(o: Orch, e: Event, i: nat, a: nat)
    requires e.StatusChange? && At(o, e.taskId, i, a) && Handle(o, e).sent != []
    ensures var r, q := o.graphs[i].tasks[a], Handle(o, e).orch.graphs[i].tasks[a];
      var result := if e.res.data.Some? then e.res.data else r.result;
      match e.specialist
      case Raised(_) => Becomes(q, InputRequired, result, r.escalation)
      case Returned(got) =>
        if Replies(e.specialist) then
          match e.resume
          case Raised(_) => Becomes(q, InputRequired, result, r.escalation)
          case Returned(then_) =>
            if Finished(then_.status) && then_.status != Completed then
              Becomes(q, then_.status, then_.data, r.escalation)
            else Becomes(q, Working, result, r.escalation)
        else if got.requiresEscalation then Becomes(q, InputRequired, result, Some(Told(got.escalationReason)))
        else Becomes(q, got.status, got.data, r.escalation)
  {
    hide Specialists; hide FindGraph; hide IndexOfTask; hide QuestionOf; hide Consultation; hide Resumption;
  }

  /** The second intent, when the call raises, and what it frees. */
  lemma ResumesExactly(o: Orch, e: Event, i: nat, a: nat)
    requires e.StatusChange? && At(o, e.taskId, i, a)
    ensures var f, r := Handle(o, e), o.graphs[i].tasks[a];
      && |f.sent| == (if f.sent == [] then 0 else if Replies(e.specialist) then 2 else 1)
      && (|f.sent| == 2 ==>
            f.sent[1] == Sent("instruction", r.targetProfile, r.targetNode, r.contextId, [e.taskId],
                              Resume(e.specialist.result.data, e.taskId), []))
      && (f.raised <==> f.sent != [] && (e.specialist.Raised? || (|f.sent| == 2 && e.resume.Raised?)))
      && f.released == (if !f.raised && Finished(e.res.status) then Some(r.targetProfile) else None)
  {
    EventSends(o, e, i, a);
    ChangeSends(o.graphs[i].tasks[a], DepthOf(o.depth, e.taskId), e);
    RaisesExactly(o, e, i, a);
    ChangeKeepsProfile(o, e);
    hide Specialists; hide FindGraph; hide IndexOfTask; hide QuestionOf; hide Consultation; hide Change;
  }

  /** A status change of a task that no conversation holds does nothing. */
  lemma UnknownTaskIsIgnored(o: Orch, e: Event)
    requires e.StatusChange? && forall g, r | g in o.graphs && r in g.tasks :: r.taskId != e.taskId
    ensures Handle(o, e) == Effect(o, [], None, false)
  {
    forall k | 0 <= k < |o.graphs| ensures !Has(o.graphs[k].tasks, e.taskId) {
      assert o.graphs[k] in o.graphs;
      assert forall a | 0 <= a < |o.graphs[k].tasks| :: o.graphs[k].tasks[a] in o.graphs[k].tasks;
    }
    hide IndexOfTask; hide FindGraph; hide Has;
  }
}
