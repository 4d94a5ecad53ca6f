/** What routing and discovery answer, in terms of the registry's entries alone. */
module RouteAnswers {
  import opened Options
  import opened Fleet

  /** The profile declares the type of intent, or has one of the tags. */
  predicate Offers(c: Capability, intentType: string, tags: seq<string>) {
    intentType in c.intents || exists t | t in tags :: t in c.tags
  }

  /** Where a dispatch to this profile goes. */
  function Address(c: Capability, localNode: string): string {
    if c.nodeId == localNode then "internal:" + c.profileName else "a2a://" + c.nodeId + "/" + c.profileName
  }

  // ---- an explicit profile ----

  /** The answer for an intent that names a profile: by the one entry of that name, if there is
      one. */
  lemma ExplicitRoute(reg: Registry, busy: set<string>, localNode: string, i: Intent)
    requires Distinct(reg) && i.targetProfile.Some? && i.targetProfile.value != ""
    ensures var d, name := RouteSpec(reg, busy, localNode, i), i.targetProfile.value;
      && ((forall c | c in reg :: c.profileName != name) ==> d == Dispatch(name, "unknown", "", Unavailable, NotFound))
      && forall c | c in reg && c.profileName == name ::
           d == if i.targetNode.Some? && i.targetNode.value != "" && i.targetNode.value != c.nodeId then
                  Dispatch(name, i.targetNode.value, "", Unavailable, WrongNode)
                else if i.intentType !in c.intents then
                  Dispatch(name, c.nodeId, Address(c, localNode), Unavailable, CannotHandle)
                else if name in busy then Dispatch(name, c.nodeId, Address(c, localNode), NoCapacity, Busy)
                else Dispatch(name, c.nodeId, Address(c, localNode), Dispatched, Routed)
  {
    GetIsUnique(reg, i.targetProfile.value);
    hide Get; hide BestMatch; hide Distinct;
  }

  // ---- any profile, or any on a node ----

  /** The node an intent asks for; an empty name asks for none. */
  function NodeOf(i: Intent): Option<string> {
    if i.targetNode.Some? && i.targetNode.value != "" then i.targetNode else None
  }

  predicate On(c: Capability, node: Option<string>) {
    node.Some? ==> c.nodeId == node.value
  }

  /** The m-th entry is the first on the node that declares the intent. */
  predicate FirstDeclares(reg: Registry, node: Option<string>, intentType: string, m: nat) {
    && m < |reg| && On(reg[m], node) && intentType in reg[m].intents
    && forall j | 0 <= j < m && On(reg[j], node) :: intentType !in reg[j].intents
  }

  predicate Shares(c: Capability, tags: seq<string>) {
    exists t | t in tags :: t in c.tags
  }

  predicate FirstShares(reg: Registry, node: Option<string>, tags: seq<string>, m: nat) {
    && m < |reg| && On(reg[m], node) && Shares(reg[m], tags)
    && forall j | 0 <= j < m && On(reg[j], node) :: !Shares(reg[j], tags)
  }

  /** The m-th entry is the best on the node: the first that declares the intent or, if none does,
      the first that shares a tag. */
  predicate IsBest(reg: Registry, node: Option<string>, i: Intent, m: nat) {
    || FirstDeclares(reg, node, i.intentType, m)
    || ((forall c | c in reg && On(c, node) :: i.intentType !in c.intents) && FirstShares(reg, node, i.tags, m))
  }

  function CandidatesOn(reg: Registry, node: Option<string>): seq<Capability> {
    if node.Some? then FilterByNode(reg, node.value) else reg
  }

  lemma CandidatesTail(reg: Registry, node: Option<string>)
    requires reg != []
    ensures CandidatesOn(reg, node) == (if On(reg[0], node) then [reg[0]] else []) + CandidatesOn(reg[1..], node)
  {
    assert reg == [reg[0]] + reg[1..];
  }

  lemma DeclaresLater(reg: Registry, node: Option<string>, intentType: string, m: nat)
    requires reg != [] && FirstDeclares(reg[1..], node, intentType, m)
    requires On(reg[0], node) ==> intentType !in reg[0].intents
    ensures FirstDeclares(reg, node, intentType, m + 1)
  {
    assert forall j | 0 < j <= m + 1 :: reg[j] == reg[1..][j - 1];
  }

  lemma SharesLater(reg: Registry, node: Option<string>, tags: seq<string>, m: nat)
    requires reg != [] && FirstShares(reg[1..], node, tags, m) && (On(reg[0], node) ==> !Shares(reg[0], tags))
    ensures FirstShares(reg, node, tags, m + 1)
  {
    assert forall j | 0 < j <= m + 1 :: reg[j] == reg[1..][j - 1];
    hide Shares;
  }

  /** The first entry is passed over if it is elsewhere or cannot be meant, and else taken. */
  lemma TakesOrSkips(reg: Registry, node: Option<string>, intentType: string, tags: seq<string>)
    requires reg != []
    ensures var all, rest := CandidatesOn(reg, node), CandidatesOn(reg[1..], node);
      && FirstDeclaring(all, intentType) == (if On(reg[0], node) && intentType in reg[0].intents then Some(reg[0])
                                             else FirstDeclaring(rest, intentType))
      && FirstTagged(all, tags) == (if On(reg[0], node) && Shares(reg[0], tags) then Some(reg[0])
                                    else FirstTagged(rest, tags))
  {
    CandidatesTail(reg, node);
    var all, rest := CandidatesOn(reg, node), CandidatesOn(reg[1..], node);
    if On(reg[0], node) {
      assert all[0] == reg[0] && all[1..] == rest;
      assert Shares(reg[0], tags) == reg[0].SharesTag(tags);
    } else {
      assert all == rest;
    }
  }

  lemma {:induction false} DeclaringIsFirst(reg: Registry, node: Option<string>, intentType: string)
    ensures var found := FirstDeclaring(CandidatesOn(reg, node), intentType);
      && (found.None? <==> forall c | c in reg && On(c, node) :: intentType !in c.intents)
      && (found.Some? ==> exists m: nat :: FirstDeclares(reg, node, intentType, m) && reg[m] == found.value)
  {
    if reg != [] {
      TakesOrSkips(reg, node, intentType, []);
      DeclaringIsFirst(reg[1..], node, intentType);
      hide CandidatesOn; hide FirstDeclaring; hide On;
      var found := FirstDeclaring(CandidatesOn(reg, node), intentType);
      assert reg == [reg[0]] + reg[1..];
      if On(reg[0], node) && intentType in reg[0].intents {
        assert FirstDeclares(reg, node, intentType, 0);
      } else if found.Some? {
        var m: nat :| FirstDeclares(reg[1..], node, intentType, m) && reg[1..][m] == found.value;
        DeclaresLater(reg, node, intentType, m);
      }
    }
  }

  lemma {:induction false} TaggedIsFirst(reg: Registry, node: Option<string>, tags: seq<string>)
    ensures var found := FirstTagged(CandidatesOn(reg, node), tags);
      && (found.None? <==> forall c | c in reg && On(c, node) :: !Shares(c, tags))
      && (found.Some? ==> exists m: nat :: FirstShares(reg, node, tags, m) && reg[m] == found.value)
  {
    if reg != [] {
      TakesOrSkips(reg, node, "", tags);
      TaggedIsFirst(reg[1..], node, tags);
      hide CandidatesOn; hide FirstTagged; hide On; hide Shares;
      var found := FirstTagged(CandidatesOn(reg, node), tags);
      assert reg == [reg[0]] + reg[1..];
      if On(reg[0], node) && Shares(reg[0], tags) {
        assert FirstShares(reg, node, tags, 0);
      } else if found.Some? {
        var m: nat :| FirstShares(reg[1..], node, tags, m) && reg[1..][m] == found.value;
        SharesLater(reg, node, tags, m);
      }
    }
  }

  lemma BestIsBest(reg: Registry, node: Option<string>, i: Intent)
    ensures var found := BestMatch(CandidatesOn(reg, node), i.intentType, i.tags);
      && (found.None? <==> forall c | c in reg && On(c, node) :: !Offers(c, i.intentType, i.tags))
      && (found.Some? ==> exists m: nat | m < |reg| && IsBest(reg, node, i, m) :: reg[m] == found.value)
  {
    DeclaringIsFirst(reg, node, i.intentType);
    TaggedIsFirst(reg, node, i.tags);
    assert forall c: Capability :: Offers(c, i.intentType, i.tags) <==> i.intentType in c.intents || Shares(c, i.tags);
    hide FirstDeclaring; hide FirstTagged; hide FirstDeclares; hide FirstShares; hide On; hide Shares; hide Offers;
  }

  /** The n-th entry is the first local one that declares the intent, and it is free. */
  predicate FreeLocal(reg: Registry, busy: set<string>, localNode: string, i: Intent, n: nat) {
    n < |reg| && FirstDeclares(reg, Some(localNode), i.intentType, n) && reg[n].profileName !in busy
  }

  /** The entry that an intent without an explicit profile goes to: the best on the node it asks for
      or, if it asks for none, the best of all; but if that is remote, the first local entry that
      declares the intent, if that one is free. */
  ghost predicate IsChosen(reg: Registry, busy: set<string>, localNode: string, i: Intent, c: Capability) {
    exists m: nat | m < |reg| && IsBest(reg, NodeOf(i), i, m) ::
      var mayPrefer := NodeOf(i).None? && reg[m].nodeId != localNode;
      || (c == reg[m] && !(mayPrefer && exists n: nat :: FreeLocal(reg, busy, localNode, i, n)))
      || (mayPrefer && exists n: nat :: FreeLocal(reg, busy, localNode, i, n) && c == reg[n])
  }

  lemma OneFirst(reg: Registry, node: Option<string>, intentType: string, m: nat, n: nat)
    requires FirstDeclares(reg, node, intentType, m) && FirstDeclares(reg, node, intentType, n)
    ensures m == n
  {
  }

  /** The first local entry that declares the intent, if it is free, is what is preferred. */
  lemma FreeLocalIsFirst(reg: Registry, busy: set<string>, localNode: string, i: Intent)
    ensures var near := FirstDeclaring(FilterByNode(reg, localNode), i.intentType);
      if near.Some? && near.value.profileName !in busy
      then exists n: nat :: FreeLocal(reg, busy, localNode, i, n) && reg[n] == near.value
      else forall n: nat :: !FreeLocal(reg, busy, localNode, i, n)
  {
    var node := Some(localNode);
    assert CandidatesOn(reg, node) == FilterByNode(reg, localNode);
    DeclaringIsFirst(reg, node, i.intentType);
    var near := FirstDeclaring(FilterByNode(reg, localNode), i.intentType);
    if near.Some? {
      var m: nat :| FirstDeclares(reg, node, i.intentType, m) && reg[m] == near.value;
      forall n: nat | FirstDeclares(reg, node, i.intentType, n) ensures n == m {
        OneFirst(reg, node, i.intentType, m, n);
      }
      hide FirstDeclares;
      assert near.value.profileName !in busy ==> FreeLocal(reg, busy, localNode, i, m);
    } else {
      forall n: nat | n < |reg| ensures !FirstDeclares(reg, node, i.intentType, n) {
        assert reg[n] in reg;
      }
    }
  }

  lemma PreferredIsChosen(reg: Registry, busy: set<string>, localNode: string, i: Intent, m: nat)
    requires m < |reg| && IsBest(reg, NodeOf(i), i, m)
    ensures IsChosen(reg, busy, localNode, i, PreferLocal(reg, busy, localNode, reg[m], i))
  {
    FreeLocalIsFirst(reg, busy, localNode, i);
    FirstDeclaringIsFirst(FilterByNode(reg, localNode), i.intentType);
    BestMatchFacts(FilterByNode(reg, localNode), i.intentType, i.tags);
    hide IsBest; hide FilterByNode; hide FirstTagged; hide FreeLocal; hide FirstDeclaring;
  }

  /** What is dispatched to this entry, or is busy. */
  function ToEntry(c: Capability, busy: set<string>, localNode: string): Dispatch {
    if c.profileName in busy then Dispatch(c.profileName, c.nodeId, Address(c, localNode), NoCapacity, Busy)
    else Dispatch(c.profileName, c.nodeId, Address(c, localNode), Dispatched, Routed)
  }

  lemma OpenForm(reg: Registry, busy: set<string>, localNode: string, i: Intent)
    requires i.targetProfile.None? || i.targetProfile.value == ""
    ensures var best := BestMatch(CandidatesOn(reg, NodeOf(i)), i.intentType, i.tags);
      RouteSpec(reg, busy, localNode, i) ==
        if best.None? then
          Dispatch("", if NodeOf(i).Some? then NodeOf(i).value else "any", "", Unavailable, NoMatch)
        else ToEntry(PreferLocal(reg, busy, localNode, best.value, i), busy, localNode)
  {
    assert Candidates(reg, i) == CandidatesOn(reg, NodeOf(i));
    hide BestMatch; hide PreferLocal; hide Candidates; hide CandidatesOn;
  }

  /** The answer for an intent that names no profile. */
  lemma OpenRoute(reg: Registry, busy: set<string>, localNode: string, i: Intent)
    requires i.targetProfile.None? || i.targetProfile.value == ""
    ensures var d := RouteSpec(reg, busy, localNode, i);
      if forall c | c in reg && On(c, NodeOf(i)) :: !Offers(c, i.intentType, i.tags) then
        d == Dispatch("", if NodeOf(i).Some? then NodeOf(i).value else "any", "", Unavailable, NoMatch)
      else exists c | c in reg && IsChosen(reg, busy, localNode, i, c) :: d == ToEntry(c, busy, localNode)
  {
    OpenForm(reg, busy, localNode, i);
    BestIsBest(reg, NodeOf(i), i);
    var best := BestMatch(CandidatesOn(reg, NodeOf(i)), i.intentType, i.tags);
    hide *;
    if best.Some? {
      var m: nat :| m < |reg| && IsBest(reg, NodeOf(i), i, m) && reg[m] == best.value;
      PreferredIsChosen(reg, busy, localNode, i, m);
      PreferredIsRegistered(reg, busy, localNode, reg[m], i);
    }
  }

  lemma PreferredIsRegistered(reg: Registry, busy: set<string>, localNode: string, best: Capability, i: Intent)
    requires best in reg
    ensures PreferLocal(reg, busy, localNode, best, i) in reg
  {
    BestMatchFacts(FilterByNode(reg, localNode), i.intentType, i.tags);
    hide BestMatch;
  }

  // ---- discovery ----

  /** These are, in order, the positions of the entries that offer the intent. */
  ghost predicate OfferPositions(reg: Registry, intentType: string, tags: seq<string>, at: seq<nat>) {
    && (forall a, b | 0 <= a < b < |at| :: at[a] < at[b])
    && (forall k: nat :: k in at <==> k < |reg| && Offers(reg[k], intentType, tags))
  }

  ghost predicate Picked(reg: Registry, at: seq<nat>, found: seq<Capability>) {
    |found| == |at| && forall k | 0 <= k < |at| :: at[k] < |reg| && found[k] == reg[at[k]]
  }

  /** The positions of the entries that offer the intent. */
  function OffersAt(reg: Registry, intentType: string, tags: seq<string>): seq<nat> {
    if reg == [] then []
    else
      var at := OffersAt(reg[..|reg| - 1], intentType, tags);
      if Offers(reg[|reg| - 1], intentType, tags) then at + [|reg| - 1] else at
  }

  lemma {:induction false} OffersAtFits(reg: Registry, intentType: string, tags: seq<string>)
    ensures OfferPositions(reg, intentType, tags, OffersAt(reg, intentType, tags))
  {
    if reg != [] {
      var front := reg[..|reg| - 1];
      OffersAtFits(front, intentType, tags);
      var at := OffersAt(front, intentType, tags);
      assert forall k | 0 <= k < |front| :: front[k] == reg[k];
      assert forall k | 0 <= k < |at| :: at[k] in at;
      hide Offers;
    }
  }

  lemma {:induction false} FoundArePicked(reg: Registry, intentType: string, tags: seq<string>)
    ensures Picked(reg, OffersAt(reg, intentType, tags), Discovered(reg, intentType, tags))
  {
    if reg != [] {
      var front, last := reg[..|reg| - 1], reg[|reg| - 1];
      FoundArePicked(front, intentType, tags);
      assert last.CanHandle(intentType, tags) == Offers(last, intentType, tags);
      hide Offers;
    }
  }

  /** Discovery finds exactly the entries that offer the intent, each once and in the order of the
      registry. */
  lemma DiscoversExactly(reg: Registry, intentType: string, tags: seq<string>)
    ensures exists at :: OfferPositions(reg, intentType, tags, at) && Picked(reg, at, Discovered(reg, intentType, tags))
  {
    OffersAtFits(reg, intentType, tags);
    FoundArePicked(reg, intentType, tags);
    hide OfferPositions; hide Picked;
  }

  // ---- a peer's card ----

  /** The last skill of the card with its id is what the peer's profile of that id is registered as,
      on the peer's node; a skill without tags declares consultations. */
  lemma SkillIsRegistered(reg: Registry, peer: string, skills: seq<Skill>, k: nat)
    requires k < |skills| && forall j | k < j < |skills| :: skills[j].id != skills[k].id
    ensures var s := skills[k]; var found := Get(RegisterAll(reg, CardCapabilities(peer, skills)), peer + "/" + s.id);
      && found.Some? && found.value.profileName == peer + "/" + s.id && found.value.nodeId == peer
      && found.value.displayName == (if s.name == "" then s.id else s.name) && found.value.description == s.description
      && found.value.tags == s.tags && found.value.examples == s.examples
      && found.value.intents == if s.tags == [] then ["consultation"] else s.tags
  {
    var caps, n := CardCapabilities(peer, skills), peer + "/" + skills[k].id;
    RegisterAllGets(reg, caps, n);
    forall j | k < j < |caps| ensures caps[j].profileName != n {
      SameTail(peer, skills[j].id, skills[k].id);
    }
    LastNamedAt(caps, k);
    hide RegisterAll; hide CardCapabilities; hide LastNamed; hide Get;
  }

  lemma SameTail(peer: string, a: string, b: string)
    ensures peer + "/" + a == peer + "/" + b ==> a == b
  {
    assert (peer + "/" + a)[|peer| + 1..] == a && (peer + "/" + b)[|peer| + 1..] == b;
  }

  lemma {:induction false} LastNamedAt(caps: seq<Capability>, k: nat)
    requires k < |caps| && forall j | k < j < |caps| :: caps[j].profileName != caps[k].profileName
    ensures LastNamed(caps, caps[k].profileName) == Some(caps[k])
  {
    if k < |caps| - 1 {
      LastNamedAt(caps[..|caps| - 1], k);
    }
  }

  /** A name that is none of the card's stays what it was. */
  lemma OtherNamesStay(reg: Registry, peer: string, skills: seq<Skill>, n: string)
    requires forall s | s in skills :: peer + "/" + s.id != n
    ensures Get(RegisterAll(reg, CardCapabilities(peer, skills)), n) == Get(reg, n)
  {
    var caps := CardCapabilities(peer, skills);
    RegisterAllGets(reg, caps, n);
    LastNamedIsNamed(caps, n);
    forall c | c in caps ensures c.profileName != n {
      var k :| 0 <= k < |caps| && caps[k] == c;
      assert skills[k] in skills;
    }
    hide RegisterAll; hide CardCapabilities; hide LastNamed; hide Get;
  }
}
