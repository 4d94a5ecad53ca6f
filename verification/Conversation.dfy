/** Task records and the conversation graph that links them into a tree.

    A graph's table keeps insertion order, because the children of a task are listed in it.
    `TaskRecord` and `ConversationGraph` are the mutable objects; `Record` and `Graph` are
    what they hold at one moment, and the tree is built over those. */
module Conversation {
  import opened Options
  import opened Tasks

  datatype Record = Record(
    taskId: string, contextId: string, status: Status, intentType: string, sourceNode: string,
    targetProfile: string, targetNode: string, payload: Payload, result: Option<Payload>,
    messages: seq<string>, artifacts: seq<string>, refs: seq<string>,
    escalation: Option<Escalation>, terminal: bool)

  /** The reason kept with a record that waits for a human. */
  datatype Escalation =
    | DepthReached(taskId: string)
    | NobodyFound(taskId: string, question: Question)
    | Told(reason: Option<string>)

  /** What is asked: a text found in the result, or the result's data as a whole. */
  datatype Question = Said(text: string) | Rendered(data: Payload)

  datatype Graph = Graph(contextId: string, rootTaskId: string, tasks: seq<Record>)

  predicate DistinctIds(ts: seq<Record>) {
    forall i, j | 0 <= i < j < |ts| :: ts[i].taskId != ts[j].taskId
  }

  function IndexOfTask(ts: seq<Record>, id: string): (r: Option<nat>)
    ensures r.Some? ==> r.value < |ts| && ts[r.value].taskId == id
    ensures r.None? ==> forall k | 0 <= k < |ts| :: ts[k].taskId != id
  {
    if ts == [] then None
    else if ts[|ts| - 1].taskId == id then Some(|ts| - 1)
    else IndexOfTask(ts[..|ts| - 1], id)
  }

  /** A known id keeps its place; a new one goes to the end. */
  function PutTask(ts: seq<Record>, r: Record): seq<Record> {
    var at := IndexOfTask(ts, r.taskId);
    if at.Some? then ts[at.value := r] else ts + [r]
  }

  // ---- the tree ----

  datatype Tree = Node(taskId: string, status: Status, intentType: string, terminal: bool, children: seq<Tree>)

  predicate InRange(at: seq<nat>, n: nat) {
    forall k | 0 <= k < |at| :: at[k] < n
  }

  /** The positions of the tasks that refer to this one, in insertion order. */
  function Children(ts: seq<Record>, id: string): (r: seq<nat>)
    ensures InRange(r, |ts|)
    ensures forall c: nat :: c in r <==> c < |ts| && id in ts[c].refs
  {
    if ts == [] then []
    else
      var rest := Children(ts[..|ts| - 1], id);
      if id in ts[|ts| - 1].refs then rest + [|ts| - 1] else rest
  }

  predicate Ascending(at: seq<nat>) {
    forall a, b | 0 <= a < b < |at| :: at[a] < at[b]
  }

  lemma AppendAscends(at: seq<nat>, n: nat)
    requires Ascending(at) && InRange(at, n)
    ensures Ascending(at + [n])
  {
  }

  lemma {:induction false} ChildrenAscend(ts: seq<Record>, id: string)
    ensures Ascending(Children(ts, id))
  {
    if ts != [] {
      ChildrenAscend(ts[..|ts| - 1], id);
      AppendAscends(Children(ts[..|ts| - 1], id), |ts| - 1);
    }
  }

  /** The recursion that builds the node of task `i`, given `fuel` levels; None if they do not
      suffice. */
  function Build(ts: seq<Record>, i: nat, fuel: nat): Option<Tree>
    requires i < |ts|
    decreases fuel, 1, 0
  {
    if fuel == 0 then None
    else
      var kids := BuildAll(ts, Children(ts, ts[i].taskId), fuel - 1);
      if kids.None? then None
      else Some(Node(ts[i].taskId, ts[i].status, ts[i].intentType, ts[i].terminal, kids.value))
  }

  function BuildAll(ts: seq<Record>, at: seq<nat>, fuel: nat): (r: Option<seq<Tree>>)
    requires InRange(at, |ts|)
    ensures r.Some? ==> |r.value| == |at|
    decreases fuel, 2, |at|
  {
    if at == [] then Some([])
    else
      var first := Build(ts, at[0], fuel);
      var rest := BuildAll(ts, at[1..], fuel);
      if first.None? || rest.None? then None else Some([first.value] + rest.value)
  }

  /** Whether the original recursion, which has no bound, ends. */
  ghost predicate Ends(ts: seq<Record>, i: nat)
    requires i < |ts|
  {
    exists fuel :: Build(ts, i, fuel).Some?
  }

  // ---- when building ends ----

  predicate Links(ts: seq<Record>, a: nat, b: nat)
    requires a < |ts|
  {
    b in Children(ts, ts[a].taskId)
  }

  /** A sequence of positions in which each one refers to the one before it. */
  predicate Path(ts: seq<Record>, p: seq<nat>) {
    && p != []
    && InRange(p, |ts|)
    && (forall k: nat, m: nat | k < |p| && m < |p| && m == k + 1 :: Links(ts, p[k], p[m]))
  }

  predicate PathFrom(ts: seq<Record>, i: nat, p: seq<nat>) {
    Path(ts, p) && p[0] == i
  }

  /** A path that meets a task twice: the task is its own descendant. */
  ghost predicate CycleFrom(ts: seq<Record>, i: nat) {
    exists p, a, b :: PathFrom(ts, i, p) && 0 <= a < b < |p| && p[a] == p[b]
  }

  predicate AllBuilt(ts: seq<Record>, at: seq<nat>, fuel: nat)
    requires InRange(at, |ts|)
  {
    forall k | 0 <= k < |at| :: Build(ts, at[k], fuel).Some?
  }

  lemma {:induction false} BuildAllSome(ts: seq<Record>, at: seq<nat>, fuel: nat)
    requires InRange(at, |ts|)
    ensures BuildAll(ts, at, fuel).Some? <==> AllBuilt(ts, at, fuel)
    ensures BuildAll(ts, at, fuel).Some? ==>
              forall k | 0 <= k < |at| :: Build(ts, at[k], fuel) == Some(BuildAll(ts, at, fuel).value[k])
    decreases |at|
  {
    if at != [] {
      BuildAllSome(ts, at[1..], fuel);
      assert at == [at[0]] + at[1..];
    }
  }

  lemma PathTail(ts: seq<Record>, p: seq<nat>)
    requires Path(ts, p) && |p| > 1
    ensures Path(ts, p[1..]) && Links(ts, p[0], p[1])
  {
    hide Links;
  }

  lemma PathCons(ts: seq<Record>, i: nat, c: nat, q: seq<nat>)
    requires i < |ts| && PathFrom(ts, c, q) && Links(ts, i, c)
    ensures PathFrom(ts, i, [i] + q)
  {
    hide Links;
    var p := [i] + q;
    forall k: nat, m: nat | k < |p| && m < |p| && m == k + 1 ensures Links(ts, p[k], p[m]) {
      assert p[m] == q[k];
      if k > 0 { assert p[k] == q[k - 1]; }
    }
  }

  lemma NodeOf(ts: seq<Record>, i: nat, fuel: nat)
    requires i < |ts| && Build(ts, i, fuel).Some?
    ensures fuel > 0 && BuildAll(ts, Children(ts, ts[i].taskId), fuel - 1).Some?
    ensures Build(ts, i, fuel).value == Node(ts[i].taskId, ts[i].status, ts[i].intentType, ts[i].terminal,
                                             BuildAll(ts, Children(ts, ts[i].taskId), fuel - 1).value)
  {
  }

  /** Building one node succeeds exactly when building each of its children does. */
  lemma BuildSome(ts: seq<Record>, i: nat, fuel: nat)
    requires i < |ts|
    ensures Build(ts, i, fuel).Some? <==>
            fuel > 0 && AllBuilt(ts, Children(ts, ts[i].taskId), fuel - 1)
  {
    if fuel > 0 {
      hide AllBuilt; hide Children;
      BuildAllSome(ts, Children(ts, ts[i].taskId), fuel - 1);
    }
  }

  /** Building with `fuel` levels succeeds only if no path is longer. */
  lemma {:induction false} BuiltBoundsPaths(ts: seq<Record>, i: nat, fuel: nat, p: seq<nat>)
    requires i < |ts| && Build(ts, i, fuel).Some? && PathFrom(ts, i, p)
    ensures |p| <= fuel
    decreases fuel
  {
    BuildSome(ts, i, fuel);
    if |p| > 1 {
      PathTail(ts, p);
      hide Path; hide Build; hide Children;
      BuiltBoundsPaths(ts, p[1], fuel - 1, p[1..]);
    }
  }

  ghost predicate PathsWithin(ts: seq<Record>, i: nat, n: nat) {
    forall p | PathFrom(ts, i, p) :: |p| <= n
  }

  lemma ChildPathsWithin(ts: seq<Record>, i: nat, c: nat, n: nat)
    requires i < |ts| && Links(ts, i, c) && PathsWithin(ts, i, n)
    ensures n > 0 && PathsWithin(ts, c, n - 1)
  {
    var one := [i];
    assert PathFrom(ts, i, one);
    hide Path; hide PathFrom; hide Links;
    assert |one| <= n;
    forall q | PathFrom(ts, c, q) ensures |q| <= n - 1 {
      PathCons(ts, i, c, q);
      var p := one + q;
      assert PathFrom(ts, i, p);
    }
  }

  /** If every path is at most `n` long, `n` levels suffice. */
  lemma {:induction false} BoundedPathsBuild(ts: seq<Record>, i: nat, n: nat)
    requires i < |ts| && PathsWithin(ts, i, n)
    ensures Build(ts, i, n).Some?
    decreases n
  {
    assert n > 0 by { assert PathFrom(ts, i, [i]); }
    var kids := Children(ts, ts[i].taskId);
    forall k | 0 <= k < |kids| ensures Build(ts, kids[k], n - 1).Some? {
      assert Links(ts, i, kids[k]) by { assert kids[k] in kids; }
      hide *;
      ChildPathsWithin(ts, i, kids[k], n);
      BoundedPathsBuild(ts, kids[k], n - 1);
    }
    BuildSome(ts, i, n);
    hide Build; hide Path; hide Children;
  }

  lemma {:induction false} DistinctBelow(p: seq<nat>, n: nat)
    requires forall k | 0 <= k < |p| :: p[k] < n
    requires forall a, b | 0 <= a < b < |p| :: p[a] != p[b]
    ensures |p| <= n
    decreases n
  {
    if p != [] {
      assert p[0] < n;
      if k :| 0 <= k < |p| && p[k] == n - 1 {
        DistinctBelow(p[..k] + p[k + 1..], n - 1);
      } else {
        DistinctBelow(p, n - 1);
      }
    }
  }

  /** A path with a repetition can be made as long as one likes by going round again. */
  lemma {:induction false} Pump(ts: seq<Record>, p: seq<nat>, a: nat, b: nat, n: nat)
    requires Path(ts, p) && a < b < |p| && p[a] == p[b]
    ensures exists q :: Path(ts, q) && q[0] == p[0] && |q| > n
    decreases n - |p|
  {
    if |p| <= n {
      var q := p[..b + 1] + p[a + 1..];
      hide Children;
      Pump(ts, q, a, b, n);
    }
  }

  /** Building the tree ends exactly when no task reachable from the root is its own
      descendant. */
  lemma TreeEndsExactly(ts: seq<Record>, i: nat)
    requires i < |ts|
    ensures Ends(ts, i) <==> !CycleFrom(ts, i)
  {
    if Ends(ts, i) && CycleFrom(ts, i) {
      var fuel :| Build(ts, i, fuel).Some?;
      var p, a, b :| PathFrom(ts, i, p) && 0 <= a < b < |p| && p[a] == p[b];
      Pump(ts, p, a, b, fuel);
      var q :| Path(ts, q) && q[0] == p[0] && |q| > fuel;
      BuiltBoundsPaths(ts, i, fuel, q);
      assert false;
    }
    if !CycleFrom(ts, i) {
      forall p | PathFrom(ts, i, p) ensures |p| <= |ts| {
        DistinctBelow(p, |ts|);
      }
      BoundedPathsBuild(ts, i, |ts|);
    }
  }

  /** More levels than needed change nothing, so there is only one tree to build. */
  lemma {:induction false} MoreFuel(ts: seq<Record>, i: nat, fuel: nat, more: nat)
    requires i < |ts| && Build(ts, i, fuel).Some? && fuel <= more
    ensures Build(ts, i, more) == Build(ts, i, fuel)
    decreases fuel, 1, 0
  {
    MoreFuelAll(ts, Children(ts, ts[i].taskId), fuel - 1, more - 1);
  }

  lemma {:induction false} MoreFuelAll(ts: seq<Record>, at: seq<nat>, fuel: nat, more: nat)
    requires InRange(at, |ts|) && BuildAll(ts, at, fuel).Some? && fuel <= more
    ensures BuildAll(ts, at, more) == BuildAll(ts, at, fuel)
    decreases fuel, 2, |at|
  {
    if at != [] {
      hide Build;
      MoreFuel(ts, at[0], fuel, more);
      MoreFuelAll(ts, at[1..], fuel, more);
    }
  }

  // ---- what the tree contains ----

  /** The registration discipline: fresh ids, and a parent that was registered before. */
  predicate Disciplined(ts: seq<Record>) {
    && DistinctIds(ts)
    && (forall j: nat | j < |ts| :: ParentBefore(ts, j))
  }

  predicate ParentBefore(ts: seq<Record>, j: nat)
    requires j < |ts|
  {
    ts[j].refs == [] || (|ts[j].refs| == 1 && exists k | 0 <= k < j :: ts[k].taskId == ts[j].refs[0])
  }

  lemma Found(ts: seq<Record>, k: nat)
    requires DistinctIds(ts) && k < |ts|
    ensures IndexOfTask(ts, ts[k].taskId) == Some(k)
    ensures forall i: nat | i < |ts| :: ts[i].taskId == ts[k].taskId ==> i == k
  {
  }

  function Parent(ts: seq<Record>, j: nat): (r: Option<nat>)
    requires j < |ts|
    ensures r.Some? ==> ts[j].refs != [] && r.value < |ts| && ts[r.value].taskId == ts[j].refs[0]
  {
    if ts[j].refs == [] then None else IndexOfTask(ts, ts[j].refs[0])
  }

  lemma ParentIsEarlier(ts: seq<Record>, j: nat)
    requires Disciplined(ts) && j < |ts|
    ensures ts[j].refs == [] <==> Parent(ts, j).None?
    ensures Parent(ts, j).Some? ==> Parent(ts, j).value < j
    ensures forall i | 0 <= i < |ts| :: j in Children(ts, ts[i].taskId) <==> Parent(ts, j) == Some(i)
  {
    assert ParentBefore(ts, j);
    if ts[j].refs != [] {
      var k :| 0 <= k < j && ts[k].taskId == ts[j].refs[0];
      Found(ts, k);
      hide IndexOfTask; hide DistinctIds; hide ParentBefore;
      assert Parent(ts, j) == Some(k);
      assert ts[j].refs == [ts[k].taskId];
    }
  }

  /** Whether the chain of parents from `j` reaches `i`. */
  predicate Reaches(ts: seq<Record>, j: nat, i: nat)
    requires Disciplined(ts) && j < |ts| && i < |ts|
    decreases j
  {
    ParentIsEarlier(ts, j);
    j == i || (Parent(ts, j).Some? && Reaches(ts, Parent(ts, j).value, i))
  }

  lemma {:induction false} ReachesDown(ts: seq<Record>, j: nat, i: nat)
    requires Disciplined(ts) && j < |ts| && i < |ts| && Reaches(ts, j, i)
    ensures i <= j
    decreases j
  {
    ParentIsEarlier(ts, j);
    if j != i {
      ReachesDown(ts, Parent(ts, j).value, i);
    }
  }

  /** Two tasks on one chain are on one chain with each other. */
  lemma {:induction false} ReachesLinear(ts: seq<Record>, j: nat, c: nat, d: nat)
    requires Disciplined(ts) && j < |ts| && c < |ts| && d < |ts|
    requires Reaches(ts, j, c) && Reaches(ts, j, d)
    ensures Reaches(ts, c, d) || Reaches(ts, d, c)
    decreases j
  {
    ParentIsEarlier(ts, j);
    if j != c && j != d {
      ReachesLinear(ts, Parent(ts, j).value, c, d);
    }
  }

  /** Below a task, a descendant goes through exactly one child. */
  lemma {:induction false} ReachesThroughChild(ts: seq<Record>, j: nat, i: nat)
    requires Disciplined(ts) && j < |ts| && i < |ts|
    ensures j != i && Reaches(ts, j, i) ==> exists c | c in Children(ts, ts[i].taskId) :: Reaches(ts, j, c)
    ensures forall c | c in Children(ts, ts[i].taskId) && Reaches(ts, j, c) :: j != i && Reaches(ts, j, i)
    decreases j
  {
    ParentIsEarlier(ts, j);
    var kids := Children(ts, ts[i].taskId);
    if Parent(ts, j).Some? {
      ReachesThroughChild(ts, Parent(ts, j).value, i);
      if Parent(ts, j).value == i {
        assert j in kids && Reaches(ts, j, j);
      } else if Reaches(ts, j, i) && j != i {
        var c :| c in kids && Reaches(ts, Parent(ts, j).value, c);
        assert Reaches(ts, j, c);
      }
    }
    forall c | c in kids && Reaches(ts, j, c) ensures j != i && Reaches(ts, j, i) {
      ParentIsEarlier(ts, c);
      ReachesDown(ts, j, c);
      if c == j { assert Reaches(ts, i, i); }
    }
  }

  lemma OneChild(ts: seq<Record>, j: nat, i: nat, c: nat, d: nat)
    requires Disciplined(ts) && j < |ts| && i < |ts|
    requires c in Children(ts, ts[i].taskId) && d in Children(ts, ts[i].taskId)
    requires Reaches(ts, j, c) && Reaches(ts, j, d)
    ensures c == d
  {
    ReachesLinear(ts, j, c, d);
    ParentIsEarlier(ts, c);
    ParentIsEarlier(ts, d);
    if c != d {
      if Reaches(ts, c, d) { ReachesDown(ts, i, d); } else { ReachesDown(ts, i, c); }
    }
  }

  function Ids(t: Tree): seq<string>
    decreases t, 0
  {
    [t.taskId] + IdsAll(t.children)
  }

  function IdsAll(ts: seq<Tree>): seq<string>
    decreases ts, 1
  {
    if ts == [] then [] else Ids(ts[0]) + IdsAll(ts[1..])
  }

  /** How many of these tasks the chain of `j` passes through. */
  function Through(ts: seq<Record>, j: nat, at: seq<nat>): nat
    requires Disciplined(ts) && j < |ts| && InRange(at, |ts|)
  {
    if at == [] then 0
    else (if Reaches(ts, j, at[0]) then 1 else 0) + Through(ts, j, at[1..])
  }

  lemma {:induction false} ThroughNone(ts: seq<Record>, j: nat, at: seq<nat>)
    requires Disciplined(ts) && j < |ts| && InRange(at, |ts|) && forall k | 0 <= k < |at| :: !Reaches(ts, j, at[k])
    ensures Through(ts, j, at) == 0
  {
    if at != [] {
      assert at[0] in at;
      ThroughNone(ts, j, at[1..]);
    }
  }

  lemma {:induction false} ThroughOne(ts: seq<Record>, j: nat, at: seq<nat>, k: nat)
    requires Disciplined(ts) && j < |ts| && InRange(at, |ts|)
    requires k < |at| && Reaches(ts, j, at[k])
    requires Ascending(at)
    requires forall c | c in at && Reaches(ts, j, c) :: c == at[k]
    ensures Through(ts, j, at) == 1
  {
    if k == 0 {
      forall c | c in at[1..] ensures !Reaches(ts, j, c) {
        var m :| 0 <= m < |at[1..]| && at[1..][m] == c;
        assert at[0] < at[m + 1] && at[m + 1] in at;
      }
      ThroughNone(ts, j, at[1..]);
    } else {
      assert at[0] < at[k] && at[0] in at;
      ThroughOne(ts, j, at[1..], k - 1);
    }
  }

  /** The chain of a task passes through exactly one child of each of its proper ancestors. */
  lemma ThroughChildren(ts: seq<Record>, j: nat, i: nat)
    requires Disciplined(ts) && j < |ts| && i < |ts|
    ensures Through(ts, j, Children(ts, ts[i].taskId)) == if j != i && Reaches(ts, j, i) then 1 else 0
  {
    var kids := Children(ts, ts[i].taskId);
    ChildrenAscend(ts, ts[i].taskId);
    ReachesThroughChild(ts, j, i);
    if j != i && Reaches(ts, j, i) {
      var c :| c in kids && Reaches(ts, j, c);
      var k :| 0 <= k < |kids| && kids[k] == c;
      forall d | d in kids && Reaches(ts, j, d) ensures d == c {
        OneChild(ts, j, i, c, d);
      }
      ThroughOne(ts, j, kids, k);
    } else {
      ThroughNone(ts, j, kids);
    }
  }

  lemma {:induction false} BuildLists(ts: seq<Record>, i: nat, fuel: nat, j: nat)
    requires Disciplined(ts) && i < |ts| && j < |ts| && Build(ts, i, fuel).Some?
    ensures multiset(Ids(Build(ts, i, fuel).value))[ts[j].taskId] == if Reaches(ts, j, i) then 1 else 0
    decreases fuel, 1, 0
  {
    var t, kids := Build(ts, i, fuel).value, Children(ts, ts[i].taskId);
    BuildAllLists(ts, kids, fuel - 1, j);
    ThroughChildren(ts, j, i);
    assert Ids(t) == [ts[i].taskId] + IdsAll(t.children);
    assert multiset(Ids(t)) == multiset{ts[i].taskId} + multiset(IdsAll(t.children));
    assert ts[i].taskId == ts[j].taskId <==> i == j;
  }

  lemma {:induction false} BuildAllLists(ts: seq<Record>, at: seq<nat>, fuel: nat, j: nat)
    requires Disciplined(ts) && j < |ts| && InRange(at, |ts|) && BuildAll(ts, at, fuel).Some?
    ensures multiset(IdsAll(BuildAll(ts, at, fuel).value))[ts[j].taskId] == Through(ts, j, at)
    decreases fuel, 2, |at|
  {
    if at != [] {
      var first, rest := Build(ts, at[0], fuel).value, BuildAll(ts, at[1..], fuel).value;
      BuildLists(ts, at[0], fuel, j);
      BuildAllLists(ts, at[1..], fuel, j);
      var all := BuildAll(ts, at, fuel).value;
      assert all == [first] + rest && all[1..] == rest;
      assert multiset(IdsAll(all)) == multiset(Ids(first)) + multiset(IdsAll(rest));
    }
  }

  lemma {:induction false} OnlyTasks(ts: seq<Record>, i: nat, fuel: nat, id: string)
    requires i < |ts| && Build(ts, i, fuel).Some? && id in Ids(Build(ts, i, fuel).value)
    ensures exists j | 0 <= j < |ts| :: ts[j].taskId == id
    decreases fuel, 1, 0
  {
    if id != ts[i].taskId {
      OnlyTasksAll(ts, Children(ts, ts[i].taskId), fuel - 1, id);
    }
  }

  lemma {:induction false} OnlyTasksAll(ts: seq<Record>, at: seq<nat>, fuel: nat, id: string)
    requires InRange(at, |ts|) && BuildAll(ts, at, fuel).Some? && id in IdsAll(BuildAll(ts, at, fuel).value)
    ensures exists j | 0 <= j < |ts| :: ts[j].taskId == id
    decreases fuel, 2, |at|
  {
    var all := BuildAll(ts, at, fuel).value;
    if at != [] {
      var first, rest := Build(ts, at[0], fuel).value, BuildAll(ts, at[1..], fuel).value;
      assert all == [first] + rest && all[1..] == rest;
      if id in Ids(first) { OnlyTasks(ts, at[0], fuel, id); } else { OnlyTasksAll(ts, at[1..], fuel, id); }
    }
  }

  /** Under the discipline every path goes to later positions, so nothing is its own
      descendant. */
  lemma DisciplinedHasNoCycle(ts: seq<Record>, i: nat)
    requires Disciplined(ts) && i < |ts|
    ensures !CycleFrom(ts, i)
  {
    forall p, a, b | Path(ts, p) && 0 <= a < b < |p| ensures p[a] < p[b] {
      PathRises(ts, p, a, b);
    }
  }

  lemma {:induction false} PathRises(ts: seq<Record>, p: seq<nat>, a: nat, b: nat)
    requires Disciplined(ts) && Path(ts, p) && a < b < |p|
    ensures p[a] < p[b]
    decreases b
  {
    ParentIsEarlier(ts, p[b]);
    assert p[b] in Children(ts, ts[p[b - 1]].taskId);
    if a < b - 1 {
      PathRises(ts, p, a, b - 1);
    }
  }

  /** Under the discipline the tree is built, and it lists exactly the tasks whose chain of
      parents reaches the root, each of them once. */
  lemma TreeListsDescendants(ts: seq<Record>, i: nat)
    requires Disciplined(ts) && i < |ts|
    ensures Build(ts, i, |ts|).Some?
    ensures var ids := Ids(Build(ts, i, |ts|).value);
      && (forall j | 0 <= j < |ts| :: multiset(ids)[ts[j].taskId] == if Reaches(ts, j, i) then 1 else 0)
      && (forall id | id in ids :: exists j | 0 <= j < |ts| :: ts[j].taskId == id)
  {
    DisciplinedHasNoCycle(ts, i);
    forall p | PathFrom(ts, i, p) ensures |p| <= |ts| {
      DistinctBelow(p, |ts|);
    }
    BoundedPathsBuild(ts, i, |ts|);
    forall j | 0 <= j < |ts|
      ensures multiset(Ids(Build(ts, i, |ts|).value))[ts[j].taskId] == if Reaches(ts, j, i) then 1 else 0
    {
      BuildLists(ts, i, |ts|, j);
    }
    forall id | id in Ids(Build(ts, i, |ts|).value) ensures exists j | 0 <= j < |ts| :: ts[j].taskId == id {
      OnlyTasks(ts, i, |ts|, id);
    }
  }

  /** A node shows what the record of its task says. */
  predicate Shows(t: Tree, r: Record) {
    t.taskId == r.taskId && t.status == r.status && t.intentType == r.intentType && t.terminal == r.terminal
  }

  /** The children of a built node stand for these records, in order. */
  ghost predicate ShowAll(ts: seq<Record>, children: seq<Tree>, at: seq<nat>, fuel: nat) {
    && |children| == |at|
    && forall k | 0 <= k < |at| ::
         at[k] < |ts| && Shows(children[k], ts[at[k]]) && Build(ts, at[k], fuel) == Some(children[k])
  }

  /** Every built node shows its record, and its children are exactly the records that refer to it,
      in insertion order and each once. */
  lemma ChildrenAreReferences(ts: seq<Record>, i: nat, fuel: nat)
    requires i < |ts| && Build(ts, i, fuel).Some?
    ensures fuel > 0 && Shows(Build(ts, i, fuel).value, ts[i])
    ensures exists at: seq<nat> ::
      && Ascending(at) && (forall c: nat :: c in at <==> c < |ts| && ts[i].taskId in ts[c].refs)
      && ShowAll(ts, Build(ts, i, fuel).value.children, at, fuel - 1)
  {
    var at := Children(ts, ts[i].taskId);
    ChildrenAscend(ts, ts[i].taskId);
    BuildAllSome(ts, at, fuel - 1);
    hide Children;
    forall k | 0 <= k < |at|
      ensures Build(ts, at[k], fuel - 1).Some? && Shows(Build(ts, at[k], fuel - 1).value, ts[at[k]])
    {
    }
    assert ShowAll(ts, Build(ts, i, fuel).value.children, at, fuel - 1);
  }

  /** Building the tree of the graph ends; a missing root ends it at once. */
  ghost predicate Buildable(g: Graph) {
    var root := IndexOfTask(g.tasks, g.rootTaskId);
    root.Some? ==> Ends(g.tasks, root.value)
  }

  ghost predicate IsTreeOf(g: Graph, t: Option<Tree>) {
    var root := IndexOfTask(g.tasks, g.rootTaskId);
    if root.None? then t.None? else t.Some? && exists fuel :: Build(g.tasks, root.value, fuel) == t
  }

  // ---- the mutable objects ----

  class TaskRecord {
    const taskId: string
    const contextId: string
    const intentType: string
    const sourceNode: string
    const targetProfile: string
    const targetNode: string
    const payload: Payload
    const refs: seq<string>
    var status: Status
    var result: Option<Payload>
    var messages: seq<string>
    var artifacts: seq<string>
    var escalation: Option<Escalation>
    var terminal: bool

    function View(): Record
      reads this
    {
      Record(taskId, contextId, status, intentType, sourceNode, targetProfile, targetNode, payload,
             result, messages, artifacts, refs, escalation, terminal)
    }

    /** A record as it is registered. */
    constructor (taskId: string, contextId: string, intentType: string, sourceNode: string,
                 targetProfile: string, targetNode: string, payload: Payload, refs: seq<string>)
      ensures View() == Record(taskId, contextId, Submitted, intentType, sourceNode, targetProfile, targetNode,
                               payload, None, [], [], refs, None, false)
    {
      this.taskId, this.contextId, this.intentType, this.sourceNode := taskId, contextId, intentType, sourceNode;
      this.targetProfile, this.targetNode, this.payload, this.refs := targetProfile, targetNode, payload, refs;
      status, result, messages, artifacts, escalation, terminal := Submitted, None, [], [], None, false;
    }
  }

  function Views(ts: seq<TaskRecord>): (r: seq<Record>)
    reads ts
    ensures |r| == |ts| && forall k | 0 <= k < |ts| :: r[k] == ts[k].View()
  {
    seq(|ts|, k requires 0 <= k < |ts| reads ts => ts[k].View())
  }

  /** The records at some positions. */
  predicate Picked(kids: seq<TaskRecord>, tasks: seq<TaskRecord>, at: seq<nat>)
    requires InRange(at, |tasks|)
  {
    |kids| == |at| && forall k | 0 <= k < |at| :: kids[k] == tasks[at[k]]
  }

  class ConversationGraph {
    const contextId: string
    const rootTaskId: string
    var tasks: seq<TaskRecord>

    ghost predicate Valid()
      reads this
    {
      && (forall t | t in tasks :: t.contextId == contextId)
      && (forall i, j | 0 <= i < j < |tasks| :: tasks[i].taskId != tasks[j].taskId)
    }

    function View(): Graph
      reads this, tasks
    {
      Graph(contextId, rootTaskId, Views(tasks))
    }

    constructor (contextId: string, rootTaskId: string)
      ensures Valid() && View() == Graph(contextId, rootTaskId, []) && tasks == []
    {
      this.contextId, this.rootTaskId, tasks := contextId, rootTaskId, [];
    }

    /** Refused when the record belongs to another context. */
    method AddTask(record: TaskRecord) returns (ok: bool)
      requires Valid()
      modifies `tasks
      ensures Valid() && ok == (record.contextId == contextId)
      ensures !ok ==> tasks == old(tasks)
      ensures ok ==> View() == old(View()).(tasks := PutTask(old(View()).tasks, record.View()))
      ensures forall t | t in tasks :: t in old(tasks) || (ok && t == record)
    {
      if record.contextId != contextId {
        return false;
      }
      var at := IndexOfTask(Views(tasks), record.taskId);
      tasks := if at.Some? then tasks[at.value := record] else tasks + [record];
      return true;
    }

    function GetTask(id: string): (t: TaskRecord?)
      reads this, tasks
      ensures t == null ==> IndexOfTask(View().tasks, id).None?
      ensures t != null ==>
        var at := IndexOfTask(View().tasks, id);
        at.Some? && at.value < |tasks| && t == tasks[at.value] && t.taskId == id && t.View() == View().tasks[at.value]
    {
      var at := IndexOfTask(Views(tasks), id);
      if at.Some? then tasks[at.value] else null
    }

    /** `ts` is what the table holds. */
    ghost predicate Holds(ts: seq<Record>)
      reads this, tasks
    {
      ts == Views(tasks)
    }

    method GetChildren(id: string, ghost ts: seq<Record>) returns (kids: seq<TaskRecord>)
      requires Holds(ts)
      ensures |ts| == |tasks| && Picked(kids, tasks, Children(ts, id))
    {
      kids := [];
      assert forall k | 0 <= k < |ts| :: ts[k].refs == tasks[k].refs;
      hide Views;
      for n := 0 to |tasks|
        invariant Picked(kids, tasks[..n], Children(ts[..n], id))
      {
        assert ts[..n + 1][..n] == ts[..n];
        if id in tasks[n].refs {
          kids := kids + [tasks[n]];
        }
      }
      assert ts[..|tasks|] == ts && tasks[..|tasks|] == tasks;
    }

    /** The node of the record at position `i` of the table `ts`, for which `fuel` levels
        suffice. */
    method BuildNode(record: TaskRecord, ghost ts: seq<Record>, ghost i: nat, ghost fuel: nat) returns (node: Tree)
      requires Holds(ts) && i < |ts| == |tasks| && tasks[i] == record && Build(ts, i, fuel).Some?
      ensures node == Build(ts, i, fuel).value
      decreases fuel, 1, 0
    {
      NodeOf(ts, i, fuel);
      assert ts[i].taskId == record.taskId && ts[i].status == record.status
          && ts[i].intentType == record.intentType && ts[i].terminal == record.terminal;
      hide *;
      var kids := GetChildren(record.taskId, ts);
      var children := BuildNodes(kids, ts, Children(ts, record.taskId), fuel - 1);
      node := Node(record.taskId, record.status, record.intentType, record.terminal, children);
    }

    /** The nodes of some records, in order. */
    method BuildNodes(records: seq<TaskRecord>, ghost ts: seq<Record>, ghost at: seq<nat>, ghost fuel: nat)
      returns (nodes: seq<Tree>)
      requires Holds(ts) && |ts| == |tasks| && InRange(at, |ts|) && BuildAll(ts, at, fuel).Some?
      requires Picked(records, tasks, at)
      ensures nodes == BuildAll(ts, at, fuel).value
      decreases fuel, 2, 0
    {
      BuildAllSome(ts, at, fuel);
      hide Build; hide BuildAll; hide Holds;
      nodes := [];
      for k := 0 to |records|
        invariant nodes == BuildAll(ts, at, fuel).value[..k]
      {
        var node := BuildNode(records[k], ts, at[k], fuel);
        nodes := nodes + [node];
      }
    }

    /** None when the root task is missing; the call ends under the condition that
        `TreeEndsExactly` characterises. */
    method GetTree() returns (t: Option<Tree>)
      requires Buildable(View())
      ensures IsTreeOf(View(), t)
    {
      hide Build; hide Children; hide IndexOfTask;
      ghost var at := IndexOfTask(View().tasks, rootTaskId);
      var root := GetTask(rootTaskId);
      if root == null {
        return None;
      }
      ghost var fuel :| Build(View().tasks, at.value, fuel).Some?;
      var node := BuildNode(root, View().tasks, at.value, fuel);
      return Some(node);
    }
  }
}
