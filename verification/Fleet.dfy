/** The fleet controller: an insertion-ordered registry of capabilities, a set of busy
    profiles, and routing by explicit profile, by node, or to the best match with a preference
    for local profiles.

    The registry is a sequence, because which match is "first" follows insertion order.
    Intents carry an optional target; an empty name counts as no target, as in the original.
    The prose of the dispatch messages is reduced to a reason. */
module Fleet {
  import opened Options

  datatype Capability = Capability(
    profileName: string, nodeId: string, displayName: string, description: string,
    intents: seq<string>, tags: seq<string>, examples: seq<string>)
  {
    predicate Declares(intentType: string) {
      intentType in intents
    }

    predicate SharesTag(wanted: seq<string>) {
      exists t | t in wanted :: t in tags
    }

    predicate CanHandle(intentType: string, wanted: seq<string>) {
      Declares(intentType) || SharesTag(wanted)
    }
  }

  /** `tags` is the list of tags in the metadata, empty when there is none or it is no list. */
  datatype Intent = Intent(intentType: string, targetProfile: Option<string>, targetNode: Option<string>,
      tags: seq<string>)

  predicate Given(target: Option<string>) {
    target.Some? && target.value != ""
  }

  datatype RouteStatus = Dispatched | Unavailable | NoCapacity

  datatype Reason = Routed | NotFound | WrongNode | CannotHandle | Busy | NoMatch

  datatype Dispatch = Dispatch(profileName: string, nodeAddress: string, endpoint: string, status: RouteStatus,
      reason: Reason)

  type Registry = seq<Capability>

  predicate Distinct(reg: Registry) {
    forall i, j | 0 <= i < j < |reg| :: reg[i].profileName != reg[j].profileName
  }

  function Get(reg: Registry, name: string): (r: Option<Capability>)
    ensures r.Some? ==> r.value in reg && r.value.profileName == name
    ensures r.None? ==> forall c | c in reg :: c.profileName != name
  {
    if reg == [] then None
    else if reg[0].profileName == name then Some(reg[0])
    else Get(reg[1..], name)
  }

  /** Assigning to a key that exists keeps its place; a new key goes to the end. */
  function Put(reg: Registry, cap: Capability): Registry {
    if reg == [] then [cap]
    else if reg[0].profileName == cap.profileName then [cap] + reg[1..]
    else [reg[0]] + Put(reg[1..], cap)
  }

  const REMOTE_SCHEME: string := "a2a://"
  const LOCAL_SCHEME: string := "internal:"

  function EndpointFor(cap: Capability, localNode: string): string {
    if cap.nodeId == localNode then LOCAL_SCHEME + cap.profileName
    else REMOTE_SCHEME + cap.nodeId + "/" + cap.profileName
  }

  predicate IsRemote(endpoint: string) {
    REMOTE_SCHEME <= endpoint
  }

  function FilterByNode(reg: Registry, node: string): (r: seq<Capability>)
    ensures forall c :: c in r <==> c in reg && c.nodeId == node
  {
    if reg == [] then []
    else
      var rest := FilterByNode(reg[1..], node);
      if reg[0].nodeId == node then [reg[0]] + rest else rest
  }

  function FirstDeclaring(cs: seq<Capability>, intentType: string): Option<Capability> {
    if cs == [] then None
    else if cs[0].Declares(intentType) then Some(cs[0])
    else FirstDeclaring(cs[1..], intentType)
  }

  function FirstTagged(cs: seq<Capability>, wanted: seq<string>): Option<Capability> {
    if cs == [] then None
    else if cs[0].SharesTag(wanted) then Some(cs[0])
    else FirstTagged(cs[1..], wanted)
  }

  /** An exact declaration wins over a shared tag. */
  function BestMatch(cs: seq<Capability>, intentType: string, wanted: seq<string>): Option<Capability> {
    var exact := FirstDeclaring(cs, intentType);
    if exact.Some? then exact else FirstTagged(cs, wanted)
  }

  function Discovered(reg: Registry, intentType: string, wanted: seq<string>): (r: seq<Capability>)
    ensures forall c :: c in r <==> c in reg && c.CanHandle(intentType, wanted)
  {
    if reg == [] then []
    else
      var front, last := Discovered(reg[..|reg| - 1], intentType, wanted), reg[|reg| - 1];
      assert reg == reg[..|reg| - 1] + [last];
      if last.CanHandle(intentType, wanted) then front + [last] else front
  }

  // ---- routing ----

  /** An explicit profile: it must exist, be on the requested node and declare the intent. */
  function RouteToProfile(reg: Registry, busy: set<string>, localNode: string, name: string, i: Intent): Dispatch {
    var cap := Get(reg, name);
    if cap.None? then Dispatch(name, "unknown", "", Unavailable, NotFound)
    else if Given(i.targetNode) && cap.value.nodeId != i.targetNode.value then
      Dispatch(name, i.targetNode.value, "", Unavailable, WrongNode)
    else
      var endpoint := EndpointFor(cap.value, localNode);
      if !cap.value.Declares(i.intentType) then Dispatch(name, cap.value.nodeId, endpoint, Unavailable, CannotHandle)
      else if name in busy then Dispatch(name, cap.value.nodeId, endpoint, NoCapacity, Busy)
      else Dispatch(name, cap.value.nodeId, endpoint, Dispatched, Routed)
  }

  /** The profiles an intent without an explicit profile is matched against. */
  function Candidates(reg: Registry, i: Intent): seq<Capability> {
    if Given(i.targetNode) then FilterByNode(reg, i.targetNode.value) else reg
  }

  /** A remote best match gives way to the first local profile if that declares the intent and
      is free. */
  function PreferLocal(reg: Registry, busy: set<string>, localNode: string, best: Capability, i: Intent): Capability {
    if Given(i.targetNode) || best.nodeId == localNode then best
    else
      var near := BestMatch(FilterByNode(reg, localNode), i.intentType, i.tags);
      if near.Some? && near.value.Declares(i.intentType) && near.value.profileName !in busy then near.value else best
  }

  function RouteSpec(reg: Registry, busy: set<string>, localNode: string, i: Intent): Dispatch {
    if Given(i.targetProfile) then RouteToProfile(reg, busy, localNode, i.targetProfile.value, i)
    else
      var best := BestMatch(Candidates(reg, i), i.intentType, i.tags);
      if best.None? then
        Dispatch("", if Given(i.targetNode) then i.targetNode.value else "any", "", Unavailable, NoMatch)
      else
        var cap := PreferLocal(reg, busy, localNode, best.value, i);
        if cap.profileName in busy then
          Dispatch(cap.profileName, cap.nodeId, EndpointFor(cap, localNode), NoCapacity, Busy)
        else
          Dispatch(cap.profileName, cap.nodeId, EndpointFor(cap, localNode), Dispatched, Routed)
  }

  class FleetController {
    var capabilities: Registry
    var busy: set<string>
    var localNode: string

    ghost predicate Valid()
      reads this
    {
      Distinct(capabilities)
    }

    constructor ()
      ensures Valid() && capabilities == [] && busy == {} && localNode == "local"
    {
      capabilities, busy, localNode := [], {}, "local";
    }

    method Route(i: Intent) returns (d: Dispatch)
      requires Valid()
      modifies `busy
      ensures d == RouteSpec(capabilities, old(busy), localNode, i)
      ensures busy == if d.status == Dispatched then old(busy) + {d.profileName} else old(busy)
      ensures d.status == Dispatched ==> d.profileName !in old(busy)
    {
      if Given(i.targetProfile) {
        var name := i.targetProfile.value;
        var cap := Get(capabilities, name);
        if cap.None? {
          return Dispatch(name, "unknown", "", Unavailable, NotFound);
        }
        if Given(i.targetNode) && cap.value.nodeId != i.targetNode.value {
          return Dispatch(name, i.targetNode.value, "", Unavailable, WrongNode);
        }
        d := Dispatch(name, cap.value.nodeId, EndpointFor(cap.value, localNode), Unavailable, CannotHandle);
        if !cap.value.Declares(i.intentType) {
          return;
        }
        if name in busy {
          return d.(status := NoCapacity, reason := Busy);
        }
        busy := busy + {name};
        return d.(status := Dispatched, reason := Routed);
      }
      var candidates := if Given(i.targetNode) then FilterByNode(capabilities, i.targetNode.value) else capabilities;
      var best := BestMatch(candidates, i.intentType, i.tags);
      if best.None? {
        return Dispatch("", if Given(i.targetNode) then i.targetNode.value else "any", "", Unavailable, NoMatch);
      }
      var cap := best.value;
      if !Given(i.targetNode) && cap.nodeId != localNode {
        var near := BestMatch(FilterByNode(capabilities, localNode), i.intentType, i.tags);
        if near.Some? && near.value.Declares(i.intentType) && near.value.profileName !in busy {
          cap := near.value;
        }
      }
      d := Dispatch(cap.profileName, cap.nodeId, EndpointFor(cap, localNode), NoCapacity, Busy);
      if cap.profileName !in busy {
        busy := busy + {cap.profileName};
        d := d.(status := Dispatched, reason := Routed);
      }
    }

    method Release(profileName: string)
      modifies `busy
      ensures busy == old(busy) - {profileName}
    {
      busy := busy - {profileName};
    }

    method RegisterProfile(cap: Capability)
      requires Valid()
      modifies `capabilities
      ensures Valid() && capabilities == Put(old(capabilities), cap)
    {
      PutFacts(capabilities, cap);
      capabilities := Put(capabilities, cap);
    }

    method Discover(intentType: string, wanted: seq<string>) returns (results: seq<Capability>)
      ensures results == Discovered(capabilities, intentType, wanted)
    {
      results := [];
      for k := 0 to |capabilities|
        invariant results == Discovered(capabilities[..k], intentType, wanted)
      {
        assert capabilities[..k + 1][..k] == capabilities[..k];
        if capabilities[k].CanHandle(intentType, wanted) {
          results := results + [capabilities[k]];
        }
      }
      assert capabilities[..|capabilities|] == capabilities;
    }
  }

  // ---- best match is the first, exact before tagged ----

  lemma {:induction false} FirstDeclaringIsFirst(cs: seq<Capability>, intentType: string)
    ensures var r := FirstDeclaring(cs, intentType);
      && (r.None? <==> forall c | c in cs :: !c.Declares(intentType))
      && (r.Some? ==> exists k | 0 <= k < |cs| ::
            cs[k] == r.value && cs[k].Declares(intentType) && forall j | 0 <= j < k :: !cs[j].Declares(intentType))
  {
    if cs != [] && !cs[0].Declares(intentType) {
      FirstDeclaringIsFirst(cs[1..], intentType);
      assert cs == [cs[0]] + cs[1..];
      var r := FirstDeclaring(cs[1..], intentType);
      if r.Some? {
        var k :| 0 <= k < |cs[1..]| && cs[1..][k] == r.value && cs[1..][k].Declares(intentType)
                 && forall j | 0 <= j < k :: !cs[1..][j].Declares(intentType);
        assert cs[k + 1] == r.value;
        assert forall j | 0 < j < k + 1 :: cs[j] == cs[1..][j - 1];
      }
    }
  }

  lemma {:induction false} FirstTaggedIsFirst(cs: seq<Capability>, wanted: seq<string>)
    ensures var r := FirstTagged(cs, wanted);
      && (r.None? <==> forall c | c in cs :: !c.SharesTag(wanted))
      && (r.Some? ==> exists k | 0 <= k < |cs| ::
            cs[k] == r.value && cs[k].SharesTag(wanted) && forall j | 0 <= j < k :: !cs[j].SharesTag(wanted))
  {
    if cs != [] && !cs[0].SharesTag(wanted) {
      FirstTaggedIsFirst(cs[1..], wanted);
      assert cs == [cs[0]] + cs[1..];
      var r := FirstTagged(cs[1..], wanted);
      if r.Some? {
        var k :| 0 <= k < |cs[1..]| && cs[1..][k] == r.value && cs[1..][k].SharesTag(wanted)
                 && forall j | 0 <= j < k :: !cs[1..][j].SharesTag(wanted);
        assert cs[k + 1] == r.value;
        assert forall j | 0 < j < k + 1 :: cs[j] == cs[1..][j - 1];
      }
    }
  }

  /** The best match is a candidate that can handle the intent, and there is none exactly when
      no candidate can. */
  lemma BestMatchFacts(cs: seq<Capability>, intentType: string, wanted: seq<string>)
    ensures var r := BestMatch(cs, intentType, wanted);
      && (r.None? <==> forall c | c in cs :: !c.CanHandle(intentType, wanted))
      && (r.Some? ==> r.value in cs && r.value.CanHandle(intentType, wanted))
      && (r.Some? && !r.value.Declares(intentType) ==> forall c | c in cs :: !c.Declares(intentType))
  {
    FirstDeclaringIsFirst(cs, intentType);
    FirstTaggedIsFirst(cs, wanted);
  }

  // ---- routing against its declarative form ----

  /** Without an explicit profile, a route is unavailable exactly when discovery finds nobody
      for the intent, on the requested node if there is one. */
  lemma UnavailableExactlyWhenUndiscovered(reg: Registry, busy: set<string>, localNode: string, i: Intent)
    requires !Given(i.targetProfile)
    ensures RouteSpec(reg, busy, localNode, i).status == Unavailable <==>
            forall c | c in Discovered(reg, i.intentType, i.tags) ::
              Given(i.targetNode) && c.nodeId != i.targetNode.value
  {
    BestMatchFacts(Candidates(reg, i), i.intentType, i.tags);
  }

  /** An explicit profile is unavailable exactly when it is unknown, elsewhere, or does not
      declare the intent; tags do not help it. */
  lemma ExplicitUnavailableExactly(reg: Registry, busy: set<string>, localNode: string, i: Intent)
    requires Distinct(reg) && Given(i.targetProfile)
    ensures RouteSpec(reg, busy, localNode, i).status == Unavailable <==>
            !exists c | c in reg :: c.profileName == i.targetProfile.value && c.Declares(i.intentType)
                                    && (Given(i.targetNode) ==> c.nodeId == i.targetNode.value)
  {
    GetIsUnique(reg, i.targetProfile.value);
  }

  lemma GetIsUnique(reg: Registry, name: string)
    requires Distinct(reg)
    ensures forall c | c in reg && c.profileName == name :: Get(reg, name) == Some(c)
  {
    forall c | c in reg && c.profileName == name ensures Get(reg, name) == Some(c) {
      var d := Get(reg, name).value;
      var i :| 0 <= i < |reg| && reg[i] == c;
      var j :| 0 <= j < |reg| && reg[j] == d;
    }
  }

  /** A dispatched profile is registered, was free, respects the requested profile and node,
      can handle the intent, and its endpoint is remote exactly when its node is not local. */
  lemma DispatchedIsSound(reg: Registry, busy: set<string>, localNode: string, i: Intent)
    requires Distinct(reg)
    ensures var d := RouteSpec(reg, busy, localNode, i);
      d.status == Dispatched ==>
        && d.profileName !in busy
        && Get(reg, d.profileName).Some?
        && (var cap := Get(reg, d.profileName).value;
            && d.nodeAddress == cap.nodeId
            && cap.CanHandle(i.intentType, i.tags)
            && (IsRemote(d.endpoint) <==> cap.nodeId != localNode))
        && (Given(i.targetProfile) ==> d.profileName == i.targetProfile.value)
        && (Given(i.targetNode) ==> d.nodeAddress == i.targetNode.value)
  {
    var d := RouteSpec(reg, busy, localNode, i);
    GetIsUnique(reg, d.profileName);
    if !Given(i.targetProfile) {
      BestMatchFacts(Candidates(reg, i), i.intentType, i.tags);
      BestMatchFacts(FilterByNode(reg, localNode), i.intentType, i.tags);
    }
    if d.status == Dispatched {
      EndpointScheme(Get(reg, d.profileName).value, localNode);
    }
  }

  lemma EndpointScheme(cap: Capability, localNode: string)
    ensures IsRemote(EndpointFor(cap, localNode)) <==> cap.nodeId != localNode
  {
    var e := EndpointFor(cap, localNode);
    if cap.nodeId == localNode {
      assert e[0] == 'i';
    } else {
      assert e == REMOTE_SCHEME + (cap.nodeId + "/" + cap.profileName);
    }
  }

  /** An untargeted intent goes to the best match, unless that is remote and the first local
      profile that declares the intent is free; whichever it is, being busy is what makes the
      route fail. So a remote choice means that no local profile declares the intent, or that
      the first one that does is busy. */
  lemma UntargetedChoice(reg: Registry, busy: set<string>, localNode: string, i: Intent)
    requires !Given(i.targetProfile) && !Given(i.targetNode)
    ensures var d := RouteSpec(reg, busy, localNode, i);
      var best := BestMatch(reg, i.intentType, i.tags);
      var first := FirstDeclaring(FilterByNode(reg, localNode), i.intentType);
      d.status != Unavailable ==>
        && best.Some?
        && d.profileName == (if best.value.nodeId != localNode && first.Some? && first.value.profileName !in busy
                             then first.value.profileName else best.value.profileName)
        && (d.status == NoCapacity <==> d.profileName in busy)
        && (d.nodeAddress != localNode ==> first.None? || first.value.profileName in busy)
  {
    BestMatchFacts(FilterByNode(reg, localNode), i.intentType, i.tags);
    FirstDeclaringIsFirst(FilterByNode(reg, localNode), i.intentType);
  }

  /** The m-th capability is the first with this property. */
  predicate FirstThat(reg: Registry, able: Capability -> bool, m: nat) {
    m < |reg| && able(reg[m]) && forall j | 0 <= j < m :: !able(reg[j])
  }

  lemma FirstThatLater(reg: Registry, able: Capability -> bool, m: nat)
    requires reg != [] && !able(reg[0]) && FirstThat(reg[1..], able, m)
    ensures FirstThat(reg, able, m + 1) && reg[m + 1] == reg[1..][m]
  {
    assert forall j | 0 < j < m + 1 :: reg[j] == reg[1..][j - 1];
  }

  lemma {:induction false} DeclaringOnNode(reg: Registry, node: string, intentType: string)
    ensures var first := FirstDeclaring(FilterByNode(reg, node), intentType);
      first.Some? ==> exists m: nat ::
        FirstThat(reg, (c: Capability) => c.nodeId == node && c.Declares(intentType), m) && reg[m] == first.value
  {
    var first := FirstDeclaring(FilterByNode(reg, node), intentType);
    var able := (c: Capability) => c.nodeId == node && c.Declares(intentType);
    if reg != [] && first.Some? {
      if able(reg[0]) {
        assert FirstThat(reg, able, 0) && FilterByNode(reg, node)[0] == reg[0];
      } else {
        DeclaringOnNode(reg[1..], node, intentType);
        assert first == FirstDeclaring(FilterByNode(reg[1..], node), intentType);
        var m: nat :| FirstThat(reg[1..], able, m) && reg[1..][m] == first.value;
        FirstThatLater(reg, able, m);
      }
    }
  }

  lemma {:induction false} TaggedOnNode(reg: Registry, node: string, wanted: seq<string>)
    ensures var first := FirstTagged(FilterByNode(reg, node), wanted);
      first.Some? ==> exists m: nat ::
        FirstThat(reg, (c: Capability) => c.nodeId == node && c.SharesTag(wanted), m) && reg[m] == first.value
  {
    var first := FirstTagged(FilterByNode(reg, node), wanted);
    var able := (c: Capability) => c.nodeId == node && c.SharesTag(wanted);
    if reg != [] && first.Some? {
      if able(reg[0]) {
        assert FirstThat(reg, able, 0) && FilterByNode(reg, node)[0] == reg[0];
      } else {
        TaggedOnNode(reg[1..], node, wanted);
        assert first == FirstTagged(FilterByNode(reg[1..], node), wanted);
        var m: nat :| FirstThat(reg[1..], able, m) && reg[1..][m] == first.value;
        FirstThatLater(reg, able, m);
      }
    }
  }

  /** The m-th capability is the first on the node that declares the intent or, if none there
      does, the first there that shares a tag. */
  predicate BestOnNode(reg: Registry, i: Intent, m: nat)
    requires i.targetNode.Some?
  {
    var node := i.targetNode.value;
    || FirstThat(reg, (c: Capability) => c.nodeId == node && c.Declares(i.intentType), m)
    || ((forall c | c in reg && c.nodeId == node :: !c.Declares(i.intentType))
        && FirstThat(reg, (c: Capability) => c.nodeId == node && c.SharesTag(i.tags), m))
  }

  /** An intent for a node goes to the best profile on that node or nowhere: it fails for lack of
      capacity exactly when that profile is busy, whatever else is free. */
  lemma NodeChoice(reg: Registry, busy: set<string>, localNode: string, i: Intent)
    requires !Given(i.targetProfile) && Given(i.targetNode)
    ensures var d := RouteSpec(reg, busy, localNode, i);
      d.status != Unavailable ==>
        exists m: nat | m < |reg| && BestOnNode(reg, i, m) ::
          && d.profileName == reg[m].profileName && d.nodeAddress == reg[m].nodeId == i.targetNode.value
          && (d.status == NoCapacity <==> reg[m].profileName in busy)
  {
    var node := i.targetNode.value;
    DeclaringOnNode(reg, node, i.intentType);
    TaggedOnNode(reg, node, i.tags);
    FirstDeclaringIsFirst(FilterByNode(reg, node), i.intentType);
    var best := BestMatch(FilterByNode(reg, node), i.intentType, i.tags);
    if best.Some? {
      var m: nat :| m < |reg| && reg[m] == best.value && BestOnNode(reg, i, m);
    }
  }

  /** Being busy is only checked for the chosen profile: a capable free profile behind a busy
      first match is not used. */
  lemma BusyFirstMatchHidesFreeOnes()
    ensures exists reg: Registry, busy, i: Intent, c ::
      && Distinct(reg) && !Given(i.targetProfile) && c in reg && c.Declares(i.intentType)
      && c.nodeId == "local" && c.profileName !in busy
      && RouteSpec(reg, busy, "local", i).status == NoCapacity
  {
    var a := Capability("a", "local", "", "", ["review"], [], []);
    var b := Capability("b", "local", "", "", ["review"], [], []);
    var i := Intent("review", None, None, []);
    var reg: Registry := [a, b];
    assert BestMatch(reg, "review", []) == Some(a);
    assert b in reg && RouteSpec(reg, {"a"}, "local", i).status == NoCapacity;
  }

  // ---- the registry ----

  function Names(reg: Registry): seq<string> {
    if reg == [] then [] else [reg[0].profileName] + Names(reg[1..])
  }

  lemma {:induction false} PutNames(reg: Registry, cap: Capability)
    ensures Names(Put(reg, cap)) == if cap.profileName in Names(reg) then Names(reg) else Names(reg) + [cap.profileName]
  {
    if reg != [] && reg[0].profileName != cap.profileName {
      PutNames(reg[1..], cap);
      assert Put(reg, cap)[1..] == Put(reg[1..], cap);
    }
  }

  lemma {:induction false} PutGets(reg: Registry, cap: Capability, n: string)
    ensures Get(Put(reg, cap), n) == if n == cap.profileName then Some(cap) else Get(reg, n)
  {
    if reg != [] && reg[0].profileName != cap.profileName {
      PutGets(reg[1..], cap, n);
      assert Put(reg, cap)[1..] == Put(reg[1..], cap);
    }
  }

  /** Registering keeps names distinct and in order, and changes what one name maps to. */
  lemma PutFacts(reg: Registry, cap: Capability)
    ensures Names(Put(reg, cap)) == if cap.profileName in Names(reg) then Names(reg) else Names(reg) + [cap.profileName]
    ensures forall n :: Get(Put(reg, cap), n) == if n == cap.profileName then Some(cap) else Get(reg, n)
    ensures Distinct(reg) ==> Distinct(Put(reg, cap))
  {
    PutNames(reg, cap);
    forall n ensures Get(Put(reg, cap), n) == if n == cap.profileName then Some(cap) else Get(reg, n) {
      PutGets(reg, cap, n);
    }
    if Distinct(reg) { PutDistinct(reg, cap); }
    hide Put; hide Get; hide Names; hide Distinct;
  }

  predicate NoneTwice(names: seq<string>) {
    forall i, j | 0 <= i < j < |names| :: names[i] != names[j]
  }

  lemma DistinctNames(reg: Registry)
    ensures Distinct(reg) <==> NoneTwice(Names(reg))
  {
    NamesAt(reg);
    hide Names;
    var names := Names(reg);
    if Distinct(reg) {
      forall i, j | 0 <= i < j < |reg| ensures names[i] != names[j] {
        assert reg[i].profileName != reg[j].profileName;
      }
    }
    if NoneTwice(names) {
      forall i, j | 0 <= i < j < |reg| ensures reg[i].profileName != reg[j].profileName {
        assert names[i] != names[j];
      }
    }
  }

  lemma PutDistinct(reg: Registry, cap: Capability)
    requires Distinct(reg)
    ensures Distinct(Put(reg, cap))
  {
    PutNames(reg, cap);
    DistinctNames(reg);
    DistinctNames(Put(reg, cap));
    hide Put; hide Names; hide Distinct;
  }

  lemma {:induction false} NamesAt(reg: Registry)
    ensures |Names(reg)| == |reg| && forall k | 0 <= k < |reg| :: Names(reg)[k] == reg[k].profileName
  {
    if reg != [] {
      NamesAt(reg[1..]);
    }
  }

  /** A registry is determined by the order of its names and by what each name maps to. */
  lemma {:induction false} RegistryExtensional(a: Registry, b: Registry)
    requires Names(a) == Names(b) && Distinct(a) && Distinct(b)
    requires forall n :: Get(a, n) == Get(b, n)
    ensures a == b
  {
    NamesAt(a);
    NamesAt(b);
    forall k | 0 <= k < |a| ensures a[k] == b[k] {
      GetIsUnique(a, Names(a)[k]);
      GetIsUnique(b, Names(b)[k]);
      assert a[k] in a && b[k] in b;
    }
  }

  function RegisterAll(reg: Registry, caps: seq<Capability>): Registry {
    if caps == [] then reg else Put(RegisterAll(reg, caps[..|caps| - 1]), caps[|caps| - 1])
  }

  /** What the last capability of this name in the list is. */
  function LastNamed(caps: seq<Capability>, name: string): Option<Capability> {
    if caps == [] then None
    else if caps[|caps| - 1].profileName == name then Some(caps[|caps| - 1])
    else LastNamed(caps[..|caps| - 1], name)
  }

  lemma {:induction false} RegisterAllGets(reg: Registry, caps: seq<Capability>, n: string)
    ensures Get(RegisterAll(reg, caps), n) == if LastNamed(caps, n).Some? then LastNamed(caps, n) else Get(reg, n)
  {
    if caps != [] {
      RegisterAllGets(reg, caps[..|caps| - 1], n);
      PutFacts(RegisterAll(reg, caps[..|caps| - 1]), caps[|caps| - 1]);
      hide Put; hide Get; hide Names; hide Distinct;
    }
  }

  lemma {:induction false} RegisterAllDistinct(reg: Registry, caps: seq<Capability>)
    requires Distinct(reg)
    ensures Distinct(RegisterAll(reg, caps))
  {
    if caps != [] {
      RegisterAllDistinct(reg, caps[..|caps| - 1]);
      PutFacts(RegisterAll(reg, caps[..|caps| - 1]), caps[|caps| - 1]);
      hide Put; hide Get; hide Names; hide Distinct;
    }
  }

  lemma PutNamed(reg: Registry, cap: Capability)
    ensures var names, after := Names(reg), Names(Put(reg, cap));
      && cap.profileName in after && (forall n | n in names :: n in after)
      && (cap.profileName in names ==> after == names)
  {
    PutFacts(reg, cap);
    hide Put; hide Get; hide Names; hide Distinct;
  }

  lemma {:induction false} RegisterAllNames(reg: Registry, caps: seq<Capability>)
    ensures (forall c | c in caps :: c.profileName in Names(reg)) ==> Names(RegisterAll(reg, caps)) == Names(reg)
    ensures forall n | n in Names(reg) :: n in Names(RegisterAll(reg, caps))
    ensures forall c | c in caps :: c.profileName in Names(RegisterAll(reg, caps))
  {
    if caps != [] {
      var front, cap := caps[..|caps| - 1], caps[|caps| - 1];
      RegisterAllNames(reg, front);
      PutNamed(RegisterAll(reg, front), cap);
      hide Put; hide Get; hide Names; hide Distinct;
      assert caps == front + [cap];
      var names := Names(RegisterAll(reg, caps));
      forall c | c in caps ensures c.profileName in names {
        if c in front { assert c.profileName in Names(RegisterAll(reg, front)); }
      }
    }
  }

  /** Registering a list a second time, after any registrations of other names in between,
      leaves the registry as it was, order included, so every later routing decision is
      unchanged. */
  lemma RegisteringAgainChangesNothing(reg: Registry, caps: seq<Capability>, others: seq<Capability>)
    requires Distinct(reg)
    requires forall c, d | c in caps && d in others :: c.profileName != d.profileName
    ensures var later := RegisterAll(RegisterAll(reg, caps), others); RegisterAll(later, caps) == later
  {
    var once := RegisterAll(reg, caps);
    var later := RegisterAll(once, others);
    RegisterAllDistinct(reg, caps);
    RegisterAllDistinct(once, others);
    RegisterAllDistinct(later, caps);
    RegisterAllNames(reg, caps);
    RegisterAllNames(once, others);
    assert forall c | c in caps :: c.profileName in Names(later);
    RegisterAllNames(later, caps);
    forall n ensures Get(RegisterAll(later, caps), n) == Get(later, n) {
      RegisterAllGets(reg, caps, n);
      RegisterAllGets(once, others, n);
      RegisterAllGets(later, caps, n);
      LastNamedIsNamed(caps, n);
      LastNamedIsNamed(others, n);
    }
    hide Distinct; hide Get; hide Put; hide Names; hide RegisterAll; hide LastNamed;
    RegistryExtensional(RegisterAll(later, caps), later);
  }

  // ---- a peer's card ----

  datatype Skill = Skill(id: string, name: string, description: string, tags: seq<string>, examples: seq<string>)

  function SkillCapability(peer: string, s: Skill): Capability {
    Capability(peer + "/" + s.id, peer, if s.name != "" then s.name else s.id, s.description,
               if s.tags != [] then s.tags else ["consultation"], s.tags, s.examples)
  }

  function CardCapabilities(peer: string, skills: seq<Skill>): (r: seq<Capability>)
    ensures |r| == |skills| && forall k | 0 <= k < |skills| :: r[k] == SkillCapability(peer, skills[k])
  {
    if skills == [] then []
    else CardCapabilities(peer, skills[..|skills| - 1]) + [SkillCapability(peer, skills[|skills| - 1])]
  }

  /** Registers every skill of a peer's card, one after the other. */
  method RegisterPeerCapabilities(fc: FleetController, peer: string, skills: seq<Skill>)
    requires fc.Valid()
    modifies fc`capabilities
    ensures fc.Valid() && fc.capabilities == RegisterAll(old(fc.capabilities), CardCapabilities(peer, skills))
  {
    for k := 0 to |skills|
      invariant fc.Valid() && fc.capabilities == RegisterAll(old(fc.capabilities), CardCapabilities(peer, skills[..k]))
    {
      assert skills[..k + 1][..k] == skills[..k];
      var done := CardCapabilities(peer, skills[..k]);
      assert (done + [SkillCapability(peer, skills[k])])[..k] == done;
      fc.RegisterProfile(SkillCapability(peer, skills[k]));
    }
    assert skills[..|skills|] == skills;
  }

  lemma LastNamedIsNamed(caps: seq<Capability>, n: string)
    ensures LastNamed(caps, n).Some? ==> LastNamed(caps, n).value in caps && LastNamed(caps, n).value.profileName == n
  {
  }

  // ---- whose names a card can claim ----

  predicate OwnedBy(peer: string, name: string) {
    peer + "/" <= name
  }

  /** One of the peers is the other, or lies inside the names of the other. */
  predicate Nested(p: string, q: string) {
    p == q || OwnedBy(p, q) || OwnedBy(q, p)
  }

  /** A peer can claim a name with some skill exactly when the name starts with the peer's own
      and a slash. */
  lemma OwnedExactly(peer: string, n: string)
    ensures OwnedBy(peer, n) <==> exists s: Skill :: SkillCapability(peer, s).profileName == n
  {
    if OwnedBy(peer, n) {
      var s := Skill(n[|peer| + 1..], "", "", [], []);
      assert peer + "/" + s.id == n;
      assert SkillCapability(peer, s).profileName == n;
    }
    forall s: Skill | SkillCapability(peer, s).profileName == n ensures OwnedBy(peer, n) {
      assert n == peer + "/" + s.id;
    }
  }

  lemma OwnersAreNested(p: string, q: string, n: string)
    requires OwnedBy(p, n) && OwnedBy(q, n) && |p| <= |q|
    ensures p == q || OwnedBy(p, q)
  {
    assert n[..|p|] == p && n[..|q|] == q && n[|p|] == '/';
    if |p| < |q| {
      assert q[..|p|] == p && q[|p|] == n[|p|];
    }
  }

  /** Two peers can claim a common name exactly when they are nested. */
  lemma NamespacesMeetExactly(p: string, q: string)
    ensures (exists s, t: Skill :: SkillCapability(p, s).profileName == SkillCapability(q, t).profileName)
            <==> Nested(p, q)
  {
    forall s, t: Skill | SkillCapability(p, s).profileName == SkillCapability(q, t).profileName ensures Nested(p, q) {
      var n := SkillCapability(p, s).profileName;
      OwnedExactly(p, n);
      OwnedExactly(q, n);
      if |p| <= |q| { OwnersAreNested(p, q, n); } else { OwnersAreNested(q, p, n); }
    }
    if Nested(p, q) {
      var n := (if |p| <= |q| then q else p) + "/";
      OwnedExactly(p, n);
      OwnedExactly(q, n);
      hide OwnedBy; hide SkillCapability;
      var s: Skill :| SkillCapability(p, s).profileName == n;
      var t: Skill :| SkillCapability(q, t).profileName == n;
    }
  }

  /** A slash in a peer's name is enough for a collision: every skill of the longer name is
      also a skill of the shorter one. */
  lemma SlashedPeersCollide(p: string, rest: string, id: string)
    ensures SkillCapability(p, Skill(rest + "/" + id, "", "", [], [])).profileName ==
            SkillCapability(p + "/" + rest, Skill(id, "", "", [], [])).profileName
  {
    assert p + "/" + (rest + "/" + id) == p + "/" + rest + "/" + id;
  }

  lemma CardTouchesOnlyOwned(reg: Registry, peer: string, skills: seq<Skill>, n: string)
    requires !OwnedBy(peer, n)
    ensures Get(RegisterAll(reg, CardCapabilities(peer, skills)), n) == Get(reg, n)
  {
    var caps := CardCapabilities(peer, skills);
    RegisterAllGets(reg, caps, n);
    LastNamedIsNamed(caps, n);
    OwnedExactly(peer, n);
    assert forall c | c in caps :: c.profileName != n;
  }

  lemma CardClaims(peer: string, s: Skill)
    ensures var n := SkillCapability(peer, s).profileName;
      Get(RegisterAll([], CardCapabilities(peer, [s])), n) != Get([], n)
  {
    var caps, cap := CardCapabilities(peer, [s]), SkillCapability(peer, s);
    assert caps == [cap];
    RegisterAllGets([], caps, cap.profileName);
  }

  /** Registering cards of a peer never changes what a name, local or remote, is mapped to,
      exactly when the peer cannot claim the name. */
  lemma CardKeepsNameExactly(peer: string, n: string)
    ensures (forall reg, skills :: Get(RegisterAll(reg, CardCapabilities(peer, skills)), n) == Get(reg, n))
            <==> !OwnedBy(peer, n)
  {
    if OwnedBy(peer, n) {
      OwnedExactly(peer, n);
      var s: Skill :| SkillCapability(peer, s).profileName == n;
      CardClaims(peer, s);
    } else {
      forall reg, skills ensures Get(RegisterAll(reg, CardCapabilities(peer, skills)), n) == Get(reg, n) {
        CardTouchesOnlyOwned(reg, peer, skills, n);
      }
    }
  }

  /** Cards of one peer never change a name that another peer can claim, exactly when the two
      are not nested. */
  lemma PeersKeepApartExactly(p: string, q: string)
    ensures (forall reg, skills, n | OwnedBy(q, n) ::
              Get(RegisterAll(reg, CardCapabilities(p, skills)), n) == Get(reg, n))
            <==> !Nested(p, q)
  {
    if Nested(p, q) {
      var n := (if |p| <= |q| then q else p) + "/";
      assert OwnedBy(p, n) && OwnedBy(q, n);
      CardKeepsNameExactly(p, n);
    } else {
      forall reg, skills, n | OwnedBy(q, n)
        ensures Get(RegisterAll(reg, CardCapabilities(p, skills)), n) == Get(reg, n)
      {
        if OwnedBy(p, n) {
          if |p| <= |q| { OwnersAreNested(p, q, n); } else { OwnersAreNested(q, p, n); }
        }
        CardTouchesOnlyOwned(reg, p, skills, n);
      }
    }
  }

  lemma SlashFreeIsNotOwned(peer: string, name: string)
    requires '/' !in name
    ensures !OwnedBy(peer, name)
  {
    if OwnedBy(peer, name) {
      OwnedHasSlash(peer, name);
    }
  }

  lemma OwnedHasSlash(peer: string, name: string)
    requires OwnedBy(peer, name)
    ensures '/' in name
  {
    assert name[|peer|] == '/';
  }

  /** Names of slash-free peers never collide with each other or with slash-free names. */
  lemma NamespacesAreDisjoint(peer: string, other: string, name: string)
    requires '/' !in peer && OwnedBy(peer, name)
    ensures '/' in name
    ensures '/' !in other && other != peer ==> !OwnedBy(other, name)
  {
    OwnedHasSlash(peer, name);
    SlashFreeIsNotOwned(other, peer);
    if '/' !in other && OwnedBy(other, name) {
      SlashFreeIsNotOwned(peer, other);
      if |peer| <= |other| { OwnersAreNested(peer, other, name); } else { OwnersAreNested(other, peer, name); }
    }
  }

  /** A slash-free peer's card leaves every slash-free local name, and every name of another
      slash-free peer, mapped to what it was. */
  lemma CardKeepsToItsNamespace(reg: Registry, peer: string, skills: seq<Skill>, n: string)
    requires '/' !in peer
    requires '/' !in n || exists other | '/' !in other && other != peer :: OwnedBy(other, n)
    ensures Get(RegisterAll(reg, CardCapabilities(peer, skills)), n) == Get(reg, n)
  {
    if OwnedBy(peer, n) {
      forall other | '/' !in other && other != peer ensures !OwnedBy(other, n) {
        NamespacesAreDisjoint(peer, other, n);
      }
      NamespacesAreDisjoint(peer, peer, n);
    }
    CardTouchesOnlyOwned(reg, peer, skills, n);
  }
}
