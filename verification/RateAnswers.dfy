/** Which requests are counted, under which name, and how each of them is decided, in terms of the
    stamps that are kept alone. */
module RateAnswers {
  import opened RateLimit

  lemma {:induction false} TrimsTo(path: string, to: string)
    requires to == "" || to[|to| - 1] != '/'
    ensures TrimSlashes(path) == to <==> to <= path && forall k | |to| <= k < |path| :: path[k] == '/'
  {
    if path != "" && path[|path| - 1] == '/' {
      var front := path[..|path| - 1];
      TrimsTo(front, to);
      assert forall k | |to| <= k < |front| :: front[k] == path[k];
      assert to <= path && to != path ==> to <= front;
    }
  }

  /** Requests are counted exactly if there is a limit and the path is that of the RPC endpoint,
      with any number of slashes after it. */
  lemma TrackedExactly(cfg: Config, r: Request)
    ensures cfg.Tracks(r) <==>
            cfg.limit > 0 && "/a2a/jsonrpc" <= r.path && forall k | 12 <= k < |r.path| :: r.path[k] == '/'
  {
    TrimsTo(r.path, "/a2a/jsonrpc");
    hide TrimSlashes;
  }

  /** The kept stamps are those of the last minute, each as often as it was there. */
  ghost predicate LastMinute(stamps: seq<Time>, now: Time, kept: seq<Time>) {
    forall t :: multiset(kept)[t] == if t > now - 60.0 then multiset(stamps)[t] else 0
  }

  lemma {:induction false} PruneIsLastMinute(stamps: seq<Time>, now: Time)
    ensures LastMinute(stamps, now, Prune(stamps, now - WINDOW))
  {
    if stamps != [] {
      var front, last := stamps[..|stamps| - 1], stamps[|stamps| - 1];
      PruneIsLastMinute(front, now);
      assert stamps == front + [last];
      assert multiset(stamps) == multiset(front) + multiset{last};
      var rest := Prune(front, now - WINDOW);
      assert multiset(rest + [last]) == multiset(rest) + multiset{last};
    }
  }

  /** The name under which a request is counted: that of its header, or one for all without. */
  function CountedAs(cfg: Config, r: Request): string {
    if r.auth == "" then "anonymous" else cfg.digest(r.auth)
  }

  /** What is decided, and kept afterwards, if these are the stamps of the last minute. */
  predicate Settles(cfg: Config, b: Buckets, r: Request, kept: seq<Time>, d: Decision, after: Buckets) {
    if |kept| >= cfg.limit then d == Rejected && after == b
    else d == Accepted && after == b[CountedAs(cfg, r) := kept + [r.now]]
  }

  /** An untracked request passes and changes nothing. A tracked one is rejected exactly if as many
      stamps as the limit, or more, are kept under its name from the last minute, and then changes
      nothing; an accepted one leaves these and its own stamp under that name, and all else. */
  lemma DecidesExactly(cfg: Config, b: Buckets, r: Request)
    ensures !cfg.Tracks(r) ==> cfg.Decide(b, r) == Untracked && cfg.Update(b, r) == b
    ensures cfg.Tracks(r) ==>
              var stamps := if CountedAs(cfg, r) in b then b[CountedAs(cfg, r)] else [];
              exists kept | LastMinute(stamps, r.now, kept) ::
                Settles(cfg, b, r, kept, cfg.Decide(b, r), cfg.Update(b, r))
  {
    if cfg.Tracks(r) {
      var stamps := if CountedAs(cfg, r) in b then b[CountedAs(cfg, r)] else [];
      PruneIsLastMinute(stamps, r.now);
      SettlesByPruned(cfg, b, r, stamps);
      hide *;
      var kept := Prune(stamps, r.now - WINDOW);
      assert LastMinute(stamps, r.now, kept) && Settles(cfg, b, r, kept, cfg.Decide(b, r), cfg.Update(b, r));
    }
    hide Prune; hide TrimSlashes; hide LastMinute; hide Settles;
  }

  lemma SettlesByPruned(cfg: Config, b: Buckets, r: Request, stamps: seq<Time>)
    requires cfg.Tracks(r) && stamps == if CountedAs(cfg, r) in b then b[CountedAs(cfg, r)] else []
    ensures Settles(cfg, b, r, Prune(stamps, r.now - WINDOW), cfg.Decide(b, r), cfg.Update(b, r))
  {
    assert cfg.Peer(r.auth) == CountedAs(cfg, r);
    hide TrimSlashes; hide Prune;
  }

  /** The middleware keeps such buckets over every run: each request is decided by what the ones
      before it left. */
  lemma RunsExactly(cfg: Config, rs: seq<Request>, r: Request)
    ensures cfg.Run([]) == map[] && cfg.Run(rs + [r]) == cfg.Update(cfg.Run(rs), r)
  {
    assert (rs + [r])[..|rs|] == rs;
  }
}
