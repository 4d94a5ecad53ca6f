/** The executor and the orchestrator as the plugin wires them: they share the fleet controller,
    and a status change of the orchestrator may come between any two steps of any calls. */
module Wiring {
  import opened Options
  import opened Fleet
  import Executor
  import Orchestrator

  datatype System = System(world: Executor.World, orch: Orchestrator.Orch)

  /** A step of a call, or an event of the orchestrator, which looks for specialists in the
      shared registry. */
  datatype Act = CallAct(s: Executor.Step) | OrchAct(e: Orchestrator.Event)

  function Seen(w: Executor.World, e: Orchestrator.Event): Orchestrator.Event {
    if e.StatusChange? then e.(reg := w.reg) else e
  }

  predicate Enabled(sys: System, act: Act) {
    act.CallAct? ==> Executor.Enabled(sys.world, act.s) && !act.s.OrchestratorRelease?
  }

  /** What the orchestrator releases is freed in the shared busy set. */
  function Next(sys: System, act: Act): System
    requires Enabled(sys, act)
  {
    match act
    case CallAct(s) => sys.(world := Executor.Next(sys.world, s))
    case OrchAct(e) =>
      var done := Orchestrator.Handle(sys.orch, Seen(sys.world, e));
      var w := if done.released.None? then sys.world
               else Executor.Next(sys.world, Executor.OrchestratorRelease(done.released.value));
      System(w, done.orch)
  }

  function Exec(sys: System, acts: seq<Act>): Option<System>
    decreases |acts|
  {
    if acts == [] then Some(sys)
    else if !Enabled(sys, acts[0]) then None
    else Exec(Next(sys, acts[0]), acts[1..])
  }

  /** An event of the orchestrator handles what it was told with the shared registry, whatever
      registry the event names, and all it does to the calls is to free the profile it releases. */
  lemma OrchActExactly(sys: System, e: Orchestrator.Event)
    requires e.StatusChange?
    ensures var done := Orchestrator.Handle(sys.orch, e.(reg := sys.world.reg)); var v := Next(sys, OrchAct(e));
      && v.orch == done.orch
      && v.world == sys.world.(busy := v.world.busy)
      && v.world.busy == if done.released.Some? then sys.world.busy - {done.released.value} else sys.world.busy
  {
    hide Orchestrator.Handle;
  }

  /** Registered profiles have names, and tasks are registered without a profile. */
  predicate AsWired(act: Act) {
    match act
    case CallAct(s) => s.Register? ==> s.cap.profileName != ""
    case OrchAct(e) => e.RegisterTask? ==> !Given(e.profile)
  }

  /** Slots are exact, everything that could be released has a name, and no record names a
      profile. */
  ghost predicate Safe(sys: System) {
    && Executor.SlotsExact(sys.world) && Executor.Sane(sys.world)
    && Executor.AllNamed(sys.world.reg) && Executor.HeldAreNamed(sys.world)
    && Orchestrator.Everywhere(sys.orch.graphs, Orchestrator.Unassigned)
  }

  lemma CallKeepsSafe(sys: System, s: Executor.Step)
    requires Safe(sys) && Enabled(sys, CallAct(s)) && AsWired(CallAct(s))
    ensures Safe(Next(sys, CallAct(s)))
  {
    assert Executor.ReleasesNobody(s);
    Executor.StepKeepsSlots(sys.world, s);
    Executor.StepKeepsSane(sys.world, s);
    Executor.StepKeepsNamed(sys.world, s);
    Executor.StepKeepsHeldNamed(sys.world, s);
    hide *;
    NextOfCall(sys, s);
    SafeParts(Next(sys, CallAct(s)));
    SafeParts(sys);
  }

  lemma NextOfCall(sys: System, s: Executor.Step)
    requires Enabled(sys, CallAct(s))
    ensures Executor.Enabled(sys.world, s)
    ensures Next(sys, CallAct(s)) == System(Executor.Next(sys.world, s), sys.orch)
  {
  }

  lemma SafeParts(sys: System)
    ensures Safe(sys) <==>
      && Executor.SlotsExact(sys.world) && Executor.Sane(sys.world)
      && Executor.AllNamed(sys.world.reg) && Executor.HeldAreNamed(sys.world)
      && Orchestrator.Everywhere(sys.orch.graphs, Orchestrator.Unassigned)
  {
  }

  /** Releasing nobody changes nothing that matters. */
  lemma EmptyReleaseKeeps(w: Executor.World)
    requires Executor.SlotsExact(w) && Executor.HeldAreNamed(w)
    ensures var w' := Executor.Next(w, Executor.OrchestratorRelease(""));
      Executor.SlotsExact(w') && w' == w.(busy := w'.busy)
  {
    Executor.StrayReleaseExactly(w, "");
    assert !Executor.Live(w, "");
    hide Executor.SlotsExact;
  }

  /** An event of the orchestrator, as wired, releases nobody and assigns no profile. */
  lemma OrchReleasesNobody(o: Orchestrator.Orch, e: Orchestrator.Event)
    requires Orchestrator.Everywhere(o.graphs, Orchestrator.Unassigned) && AsWired(OrchAct(e))
    ensures var done := Orchestrator.Handle(o, e);
      && (done.released.None? || done.released.value == "")
      && Orchestrator.Everywhere(done.orch.graphs, Orchestrator.Unassigned)
  {
    var done := Orchestrator.Handle(o, e);
    assert Orchestrator.Run(o, [e]) == done.orch by {
      assert [e][1..] == [];
      RunOfNothing(done.orch);
      hide Orchestrator.Handle;
    }
    RunOfNothing(o);
    hide Orchestrator.Handle; hide Orchestrator.Everywhere; hide Orchestrator.Run; hide Orchestrator.Unassigned;
    Orchestrator.UnassignedReleaseNobody(o, [], e);
    Orchestrator.UnassignedReleaseNobody(o, [e], e);
  }

  lemma OrchKeepsSafe(sys: System, e: Orchestrator.Event)
    requires Safe(sys) && AsWired(OrchAct(e))
    ensures Safe(Next(sys, OrchAct(e)))
  {
    assert AsWired(OrchAct(Seen(sys.world, e)));
    SafeParts(sys);
    SafeParts(Next(sys, OrchAct(e)));
    hide Safe; hide AsWired; hide Seen; hide Orchestrator.Everywhere; hide Executor.SlotsExact;
    OrchReleasesNobody(sys.orch, Seen(sys.world, e));
    EmptyReleaseKeeps(sys.world);
    hide Orchestrator.Handle; hide Executor.Next;
    SaneDespiteBusy(sys.world, Executor.Next(sys.world, Executor.OrchestratorRelease("")));
  }

  lemma SaneDespiteBusy(w: Executor.World, v: Executor.World)
    requires v == w.(busy := v.busy)
    ensures Executor.Sane(w) == Executor.Sane(v) && Executor.HeldAreNamed(w) == Executor.HeldAreNamed(v)
  {
    assert forall id :: (Executor.Holds(w, id) <==> Executor.Holds(v, id));
    assert forall id :: Executor.Holds(w, id) ==> Executor.SlotOf(w, id) == Executor.SlotOf(v, id);
  }

  lemma RunOfNothing(o: Orchestrator.Orch)
    ensures Orchestrator.Run(o, []) == o
  {
  }

  /** Slot safety of the whole: however calls and status changes interleave, the busy set is
      exactly the set of profiles held by calls, and these are distinct. No assumption about
      what the orchestrator releases is needed any more. */
  lemma {:induction false} WiredSlotSafety(sys: System, acts: seq<Act>)
    requires Safe(sys) && Exec(sys, acts).Some? && forall k | 0 <= k < |acts| :: AsWired(acts[k])
    ensures Safe(Exec(sys, acts).value)
    decreases |acts|
  {
    if acts != [] {
      hide Safe; hide Next; hide AsWired; hide Enabled;
      match acts[0] {
        case CallAct(s) => CallKeepsSafe(sys, s);
        case OrchAct(e) => OrchKeepsSafe(sys, e);
      }
      WiredSlotSafety(Next(sys, acts[0]), acts[1..]);
    }
  }

  /** From the plugin's start on. */
  lemma WiredFromStart(reg: Registry, localNode: string, peers: set<string>, hasMesh: bool, acts: seq<Act>)
    requires Distinct(reg) && Executor.AllNamed(reg) && "" !in peers
    requires var sys := System(Executor.Start(reg, localNode, peers, hasMesh, true), Orchestrator.NOTHING);
      Exec(sys, acts).Some? && forall k | 0 <= k < |acts| :: AsWired(acts[k])
    ensures var sys := System(Executor.Start(reg, localNode, peers, hasMesh, true), Orchestrator.NOTHING);
      Executor.SlotsExact(Exec(sys, acts).value.world)
  {
    var sys := System(Executor.Start(reg, localNode, peers, hasMesh, true), Orchestrator.NOTHING);
    Executor.StartIsSafe(reg, localNode, peers, hasMesh, true);
    SafeParts(sys);
    WiredSlotSafety(sys, acts);
    SafeParts(Exec(sys, acts).value);
  }
}
