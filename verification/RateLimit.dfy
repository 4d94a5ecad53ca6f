/** The per-peer rate limiter: pruned buckets of request stamps, decided under a lock.

    Time is a real number of seconds. The digest of a bearer token is a parameter. */
module RateLimit {

  type Time = real

  const WINDOW: Time := 60.0
  const RPC_PATH: string := "/a2a/jsonrpc"
  const ANONYMOUS: string := "anonymous"

  /** `Untracked` requests pass without being counted. */
  datatype Decision = Untracked | Accepted | Rejected

  datatype Request = Request(path: string, auth: string, now: Time)

  type Buckets = map<string, seq<Time>>

  function TrimSlashes(path: string): string {
    if path != "" && path[|path| - 1] == '/' then TrimSlashes(path[..|path| - 1]) else path
  }

  function Prune(stamps: seq<Time>, cutoff: Time): seq<Time> {
    if stamps == [] then []
    else
      var rest, last := Prune(stamps[..|stamps| - 1], cutoff), stamps[|stamps| - 1];
      if last > cutoff then rest + [last] else rest
  }

  function Bucket(b: Buckets, peer: string): seq<Time> {
    if peer in b then b[peer] else []
  }

  /** The settings of one middleware instance. */
  datatype Config = Config(limit: int, digest: string -> string) {
    function Peer(auth: string): string {
      if auth == "" then ANONYMOUS else digest(auth)
    }

    predicate Tracks(r: Request) {
      limit > 0 && TrimSlashes(r.path) == RPC_PATH
    }

    function Decide(b: Buckets, r: Request): Decision {
      if !Tracks(r) then Untracked
      else if |Prune(Bucket(b, Peer(r.auth)), r.now - WINDOW)| >= limit then Rejected
      else Accepted
    }

    /** A rejected request leaves its bucket as it was, stale stamps included. */
    function Update(b: Buckets, r: Request): Buckets {
      if Decide(b, r) != Accepted then b
      else b[Peer(r.auth) := Prune(Bucket(b, Peer(r.auth)), r.now - WINDOW) + [r.now]]
    }

    function Run(rs: seq<Request>): Buckets {
      if rs == [] then map[] else Update(Run(rs[..|rs| - 1]), rs[|rs| - 1])
    }

    /** The stamps of the requests of one peer that were accepted, over the whole history. */
    function History(rs: seq<Request>, peer: string): seq<Time> {
      if rs == [] then []
      else
        var front, r := rs[..|rs| - 1], rs[|rs| - 1];
        if Decide(Run(front), r) == Accepted && Peer(r.auth) == peer then History(front, peer) + [r.now]
        else History(front, peer)
    }
  }

  // ---- the middleware ----

  class RateLimiter {
    const config: Config
    var buckets: Buckets
    ghost var served: seq<Request>

    ghost predicate Valid()
      reads this
    {
      buckets == config.Run(served)
    }

    constructor (config: Config)
      ensures this.config == config && Valid() && served == []
    {
      this.config := config;
      buckets, served := map[], [];
    }

    /** The part of a request that runs before the application is called. The bucket of any
        other peer is left alone. */
    method Dispatch(r: Request) returns (d: Decision)
      requires Valid()
      modifies this
      ensures Valid() && served == old(served) + [r]
      ensures d == config.Decide(old(buckets), r)
      ensures forall peer | peer != config.Peer(r.auth) :: Bucket(buckets, peer) == Bucket(old(buckets), peer)
      ensures d != Accepted ==> buckets == old(buckets)
    {
      served := served + [r];
      assert served[..|served| - 1] == old(served);
      if config.limit <= 0 {
        return Untracked;
      }
      if TrimSlashes(r.path) != RPC_PATH {
        return Untracked;
      }
      var peer := if r.auth != "" then config.digest(r.auth) else ANONYMOUS;
      var stamps := if peer in buckets then buckets[peer] else [];
      var cutoff := r.now - WINDOW;
      var recent := [];
      for i := 0 to |stamps|
        invariant recent == Prune(stamps[..i], cutoff)
      {
        assert stamps[..i + 1][..i] == stamps[..i];
        if stamps[i] > cutoff {
          recent := recent + [stamps[i]];
        }
      }
      assert stamps[..|stamps|] == stamps;
      if |recent| >= config.limit {
        return Rejected;
      }
      buckets := buckets[peer := recent + [r.now]];
      return Accepted;
    }
  }

  // ---- pruning ----

  lemma {:induction false} PruneTwice(stamps: seq<Time>, c: Time, d: Time)
    requires c <= d
    ensures Prune(Prune(stamps, c), d) == Prune(stamps, d)
  {
    if stamps != [] {
      var front, last := stamps[..|stamps| - 1], stamps[|stamps| - 1];
      PruneTwice(front, c, d);
      if last > c {
        assert (Prune(front, c) + [last])[..|Prune(front, c)|] == Prune(front, c);
      }
    }
  }

  lemma PruneSnoc(stamps: seq<Time>, t: Time, c: Time)
    ensures Prune(stamps + [t], c) == Prune(stamps, c) + (if t > c then [t] else [])
  {
    assert (stamps + [t])[..|stamps|] == stamps;
  }

  // ---- one more request ----

  /** Only the bucket of the request's peer counts, and only that bucket and history change. */
  lemma OneMore(cfg: Config, rs: seq<Request>, r: Request, peer: string)
    ensures var b := Bucket(cfg.Run(rs), peer);
      var took := cfg.Decide(cfg.Run(rs), r) == Accepted && cfg.Peer(r.auth) == peer;
      && Bucket(cfg.Run(rs + [r]), peer) == (if took then Prune(b, r.now - WINDOW) + [r.now] else b)
      && cfg.History(rs + [r], peer) == (if took then cfg.History(rs, peer) + [r.now] else cfg.History(rs, peer))
  {
    assert (rs + [r])[..|rs|] == rs;
    hide Prune; hide TrimSlashes;
  }

  lemma SameBucketSameDecision(cfg: Config, a: Buckets, b: Buckets, r: Request)
    requires Bucket(a, cfg.Peer(r.auth)) == Bucket(b, cfg.Peer(r.auth))
    ensures cfg.Decide(a, r) == cfg.Decide(b, r)
  {
    hide Prune; hide TrimSlashes;
  }

  // ---- the buckets decide as the full history would ----

  /** No request of this peer has a stamp later than `t`. */
  predicate Latest(cfg: Config, rs: seq<Request>, peer: string, t: Time) {
    forall i | 0 <= i < |rs| && cfg.Peer(rs[i].auth) == peer :: rs[i].now <= t
  }

  /** Pruning has only dropped stamps that a request of the peer with the latest stamp so far
      does not count. In between the clock may have gone any way. */
  lemma {:induction false} BucketIsRecentHistory(cfg: Config, rs: seq<Request>, peer: string, c: Time)
    requires Latest(cfg, rs, peer, c + WINDOW)
    ensures Prune(Bucket(cfg.Run(rs), peer), c) == Prune(cfg.History(rs, peer), c)
  {
    if rs != [] {
      var front, r := rs[..|rs| - 1], rs[|rs| - 1];
      var b, h := Bucket(cfg.Run(front), peer), cfg.History(front, peer);
      BucketIsRecentHistory(cfg, front, peer, c);
      assert cfg.Peer(r.auth) == peer ==> r.now - WINDOW <= c;
      assert rs == front + [r];
      OneMore(cfg, front, r, peer);
      hide *;
      if cfg.Decide(cfg.Run(front), r) == Accepted && cfg.Peer(r.auth) == peer {
        PruneTwice(b, r.now - WINDOW, c);
        PruneSnoc(Prune(b, r.now - WINDOW), r.now, c);
        PruneSnoc(h, r.now, c);
      }
    }
  }

  /** A decision on a tracked request that has the latest stamp of its peer is the one the peer's
      full history of accepted requests gives, even if the clock stepped back before: accept if
      and only if fewer than the limit lie in the last minute. */
  lemma DecidesAsFullHistory(cfg: Config, rs: seq<Request>, r: Request)
    requires cfg.Tracks(r) && Latest(cfg, rs, cfg.Peer(r.auth), r.now)
    ensures cfg.Decide(cfg.Run(rs), r) == Accepted <==>
            |Prune(cfg.History(rs, cfg.Peer(r.auth)), r.now - WINDOW)| < cfg.limit
  {
    assert r.now - WINDOW + WINDOW == r.now;
    DecidesByBucket(cfg, cfg.Run(rs), r);
    hide *;
    BucketIsRecentHistory(cfg, rs, cfg.Peer(r.auth), r.now - WINDOW);
  }

  lemma DecidesByBucket(cfg: Config, b: Buckets, r: Request)
    requires cfg.Tracks(r)
    ensures cfg.Decide(b, r) == Accepted <==> |Prune(Bucket(b, cfg.Peer(r.auth)), r.now - WINDOW)| < cfg.limit
  {
    hide Prune; hide Bucket; hide TrimSlashes;
  }

  // ---- no minute holds more than the limit ----

  /** How many of these stamps lie in the half-open minute that ends at `t`. */
  function InMinute(stamps: seq<Time>, t: Time): nat {
    if stamps == [] then 0
    else InMinute(stamps[..|stamps| - 1], t) + (if t - WINDOW < stamps[|stamps| - 1] <= t then 1 else 0)
  }

  lemma {:induction false} InMinuteOfPruned(stamps: seq<Time>, t: Time, c: Time)
    requires c <= t - WINDOW
    ensures InMinute(stamps, t) <= |Prune(stamps, c)|
  {
    if stamps != [] {
      InMinuteOfPruned(stamps[..|stamps| - 1], t, c);
    }
  }

  /** Between two requests of this peer the clock steps back by at most `d`. */
  predicate BackByAtMost(cfg: Config, rs: seq<Request>, peer: string, d: Time) {
    forall i, j | 0 <= i < j < |rs| && cfg.Peer(rs[i].auth) == peer && cfg.Peer(rs[j].auth) == peer ::
      rs[i].now <= rs[j].now + d
  }

  /** Over every run in which the peer's clock does not run backwards, and for every instant,
      the minute up to that instant holds at most `limit` accepted requests of the peer. */
  lemma {:induction false} NeverMoreThanLimit(cfg: Config, rs: seq<Request>, peer: string, t: Time)
    requires cfg.limit > 0 && BackByAtMost(cfg, rs, peer, 0.0)
    ensures InMinute(cfg.History(rs, peer), t) <= cfg.limit
  {
    if rs != [] {
      var front, r := rs[..|rs| - 1], rs[|rs| - 1];
      var h := cfg.History(front, peer);
      assert rs == front + [r];
      NeverMoreThanLimit(cfg, front, peer, t);
      if cfg.Decide(cfg.Run(front), r) == Accepted && cfg.Peer(r.auth) == peer {
        assert (h + [r.now])[..|h|] == h;
        if t - WINDOW < r.now <= t {
          DecidesAsFullHistory(cfg, front, r);
          InMinuteOfPruned(h, t, r.now - WINDOW);
        }
      }
    }
  }

  // ---- which clocks and limits keep the bound ----

  lemma InMinuteSnoc(stamps: seq<Time>, s: Time, t: Time)
    ensures InMinute(stamps + [s], t) == InMinute(stamps, t) + (if t - WINDOW < s <= t then 1 else 0)
  {
    assert (stamps + [s])[..|stamps|] == stamps;
  }

  /** Each stamp is at least a minute after the one before it. */
  predicate Spaced(stamps: seq<Time>) {
    forall i, j | 0 <= i < j < |stamps| :: stamps[i] + WINDOW <= stamps[j]
  }

  lemma {:induction false} NoneBefore(stamps: seq<Time>, t: Time)
    requires forall i | 0 <= i < |stamps| :: stamps[i] <= t - WINDOW
    ensures InMinute(stamps, t) == 0
  {
    if stamps != [] {
      NoneBefore(stamps[..|stamps| - 1], t);
    }
  }

  lemma {:induction false} SpacedHoldsOne(stamps: seq<Time>, t: Time)
    requires Spaced(stamps)
    ensures InMinute(stamps, t) <= 1
  {
    if stamps != [] {
      var front, last := stamps[..|stamps| - 1], stamps[|stamps| - 1];
      if t - WINDOW < last <= t {
        NoneBefore(front, t);
      } else {
        SpacedHoldsOne(front, t);
      }
    }
  }

  lemma SpacedSnoc(stamps: seq<Time>, now: Time)
    requires Spaced(stamps) && (stamps != [] ==> stamps[|stamps| - 1] + WINDOW <= now)
    ensures Spaced(stamps + [now])
  {
    assert forall i | 0 <= i < |stamps| - 1 :: stamps[i] + WINDOW <= stamps[|stamps| - 1];
  }

  /** Under a limit of one, a bucket is the last accepted stamp, and whatever the clock does,
      accepted stamps are a minute apart. */
  lemma {:induction false} LimitOneSpaces(cfg: Config, rs: seq<Request>, peer: string)
    requires cfg.limit == 1
    ensures Spaced(cfg.History(rs, peer)) && Bucket(cfg.Run(rs), peer) == LastOf(cfg.History(rs, peer))
  {
    if rs != [] {
      var front, r := rs[..|rs| - 1], rs[|rs| - 1];
      assert rs == front + [r];
      hide *;
      LimitOneSpaces(cfg, front, peer);
      OneMore(cfg, front, r, peer);
      if cfg.Decide(cfg.Run(front), r) == Accepted && cfg.Peer(r.auth) == peer {
        var h, now := cfg.History(front, peer), r.now;
        AcceptedUnderOne(cfg, cfg.Run(front), r);
        LastPruned(h, now);
        SpacedSnoc(h, now);
      }
    }
  }

  function LastOf(stamps: seq<Time>): seq<Time> {
    if stamps == [] then [] else [stamps[|stamps| - 1]]
  }

  lemma LastPruned(stamps: seq<Time>, now: Time)
    requires Prune(LastOf(stamps), now - WINDOW) == []
    ensures stamps != [] ==> stamps[|stamps| - 1] + WINDOW <= now
    ensures LastOf(stamps + [now]) == [] + [now]
  {
    if stamps != [] {
      PruneSnoc([], stamps[|stamps| - 1], now - WINDOW);
      assert LastOf(stamps) == [] + [stamps[|stamps| - 1]];
    }
  }

  lemma AcceptedUnderOne(cfg: Config, b: Buckets, r: Request)
    requires cfg.limit == 1 && cfg.Decide(b, r) == Accepted
    ensures Prune(Bucket(b, cfg.Peer(r.auth)), r.now - WINDOW) == []
  {
  }

  /** What one more accepted request of the same peer adds. */
  lemma AcceptsNext(cfg: Config, rs: seq<Request>, r: Request)
    requires cfg.Tracks(r) && |Prune(Bucket(cfg.Run(rs), cfg.Peer(r.auth)), r.now - WINDOW)| < cfg.limit
    ensures var peer := cfg.Peer(r.auth);
      && Bucket(cfg.Run(rs + [r]), peer) == Prune(Bucket(cfg.Run(rs), peer), r.now - WINDOW) + [r.now]
      && cfg.History(rs + [r], peer) == cfg.History(rs, peer) + [r.now]
  {
    OneMore(cfg, rs, r, cfg.Peer(r.auth));
    hide Prune; hide TrimSlashes;
  }

  lemma RpcIsTracked(cfg: Config, now: Time)
    ensures var r := Anonymous(now); cfg.Tracks(r) == (cfg.limit > 0) && cfg.Peer(r.auth) == ANONYMOUS
  {
  }

  function Anonymous(now: Time): Request {
    Request(RPC_PATH, "", now)
  }

  function Copies(n: nat, now: Time): seq<Request> {
    seq(n, _ => Anonymous(now))
  }

  function Stamps(n: nat, now: Time): seq<Time> {
    seq(n, _ => now)
  }

  lemma {:induction false} PruneStamps(n: nat, now: Time, c: Time)
    ensures Prune(Stamps(n, now), c) == if now > c then Stamps(n, now) else []
  {
    if n > 0 {
      PruneStamps(n - 1, now, c);
      PruneSnoc(Stamps(n - 1, now), now, c);
      assert Stamps(n, now) == Stamps(n - 1, now) + [now];
    }
  }

  lemma {:induction false} InMinuteStamps(n: nat, now: Time, t: Time)
    ensures InMinute(Stamps(n, now), t) == if t - WINDOW < now <= t then n else 0
  {
    if n > 0 {
      InMinuteStamps(n - 1, now, t);
      InMinuteSnoc(Stamps(n - 1, now), now, t);
      assert Stamps(n, now) == Stamps(n - 1, now) + [now];
    }
  }

  /** The same for a request without a token. */
  lemma AnonymousAccepted(cfg: Config, rs: seq<Request>, now: Time)
    requires cfg.limit > 0 && |Prune(Bucket(cfg.Run(rs), ANONYMOUS), now - WINDOW)| < cfg.limit
    ensures Bucket(cfg.Run(rs + [Anonymous(now)]), ANONYMOUS) ==
            Prune(Bucket(cfg.Run(rs), ANONYMOUS), now - WINDOW) + [now]
    ensures cfg.History(rs + [Anonymous(now)], ANONYMOUS) == cfg.History(rs, ANONYMOUS) + [now]
  {
    var r := Anonymous(now);
    RpcIsTracked(cfg, now);
    assert r.now == now;
    hide *;
    AcceptsNext(cfg, rs, r);
  }

  lemma OneMoreCopy(n: nat, now: Time)
    ensures Copies(n + 1, now) == Copies(n, now) + [Anonymous(now)] && Stamps(n + 1, now) == Stamps(n, now) + [now]
    ensures |Stamps(n, now)| == n
  {
  }

  /** As many requests at one instant as the limit allows are all accepted. */
  lemma {:induction false} BurstIsAccepted(cfg: Config, n: nat, now: Time)
    requires n <= cfg.limit
    ensures Bucket(cfg.Run(Copies(n, now)), ANONYMOUS) == Stamps(n, now) == cfg.History(Copies(n, now), ANONYMOUS)
  {
    if n > 0 {
      hide *;
      BurstIsAccepted(cfg, n - 1, now);
      OneMoreCopy(n - 1, now);
      PruneStamps(n - 1, now, now - WINDOW);
      AnonymousAccepted(cfg, Copies(n - 1, now), now);
    }
  }

  /** A burst up to the limit, one request a minute later, and one after a step back by `d`. */
  function StepBackRun(limit: nat, d: Time): seq<Request> {
    Copies(limit, 100.0) + [Anonymous(160.0)] + [Anonymous(160.0 - d)]
  }

  lemma LaterIsAccepted(cfg: Config, rs: seq<Request>)
    requires cfg.limit >= 2 && Bucket(cfg.Run(rs), ANONYMOUS) == cfg.History(rs, ANONYMOUS) == Stamps(cfg.limit, 100.0)
    ensures Bucket(cfg.Run(rs + [Anonymous(160.0)]), ANONYMOUS) == Stamps(1, 160.0)
    ensures cfg.History(rs + [Anonymous(160.0)], ANONYMOUS) == Stamps(cfg.limit, 100.0) + [160.0]
  {
    PruneStamps(cfg.limit, 100.0, 100.0);
    assert [] + [160.0] == Stamps(1, 160.0);
    hide *;
    AnonymousAccepted(cfg, rs, 160.0);
  }

  lemma SteppedBackIsAccepted(cfg: Config, rs: seq<Request>, h: seq<Time>, now: Time)
    requires cfg.limit >= 2 && Bucket(cfg.Run(rs), ANONYMOUS) == Stamps(1, 160.0) && cfg.History(rs, ANONYMOUS) == h
    requires now - WINDOW < 160.0
    ensures cfg.History(rs + [Anonymous(now)], ANONYMOUS) == h + [now]
  {
    PruneStamps(1, 160.0, now - WINDOW);
    assert |Stamps(1, 160.0)| == 1;
    hide *;
    AnonymousAccepted(cfg, rs, now);
  }

  lemma StepBackAccepted(cfg: Config, d: Time)
    requires cfg.limit >= 2 && 0.0 < d <= WINDOW
    ensures cfg.History(StepBackRun(cfg.limit, d), ANONYMOUS) == Stamps(cfg.limit, 100.0) + [160.0] + [160.0 - d]
  {
    var burst, now := Copies(cfg.limit, 100.0), 160.0 - d;
    var later, h := burst + [Anonymous(160.0)], Stamps(cfg.limit, 100.0) + [160.0];
    assert StepBackRun(cfg.limit, d) == later + [Anonymous(now)];
    assert now - WINDOW < 160.0;
    hide *;
    BurstIsAccepted(cfg, cfg.limit, 100.0);
    LaterIsAccepted(cfg, burst);
    SteppedBackIsAccepted(cfg, later, h, now);
  }

  /** A clock that steps back at all breaks the bound for every limit above one. */
  lemma ClockMustNotStepBack(cfg: Config, d: Time)
    requires cfg.limit >= 2 && d > 0.0
    ensures exists rs, t :: BackByAtMost(cfg, rs, ANONYMOUS, d) && InMinute(cfg.History(rs, ANONYMOUS), t) > cfg.limit
  {
    var e := if d <= WINDOW then d else WINDOW;
    var rs, t := StepBackRun(cfg.limit, e), 160.0 - e;
    StepBackAccepted(cfg, e);
    InMinuteStamps(cfg.limit, 100.0, t);
    InMinuteSnoc(Stamps(cfg.limit, 100.0), 160.0, t);
    InMinuteSnoc(Stamps(cfg.limit, 100.0) + [160.0], t, t);
    assert BackByAtMost(cfg, rs, ANONYMOUS, d) by {
      assert forall i | 0 <= i < |rs| ::
          rs[i].now == if i < cfg.limit then 100.0 else if i == cfg.limit then 160.0 else t;
    }
    hide *;
    assert InMinute(cfg.History(rs, ANONYMOUS), t) > cfg.limit;
  }

  /** The bound, for every peer, every instant and every run whose clock steps back by at most
      `d` between requests of that peer. */
  ghost predicate Bounded(cfg: Config, d: Time) {
    forall rs, peer, t | BackByAtMost(cfg, rs, peer, d) :: InMinute(cfg.History(rs, peer), t) <= cfg.limit
  }

  /** Exactly which clocks and limits keep the bound: a clock that does not step back, or a limit
      of one, under which the clock does not matter. */
  lemma BoundedExactly(cfg: Config, d: Time)
    requires cfg.limit > 0 && d >= 0.0
    ensures Bounded(cfg, d) <==> d == 0.0 || cfg.limit == 1
  {
    if cfg.limit == 1 {
      forall rs, peer, t | BackByAtMost(cfg, rs, peer, d) ensures InMinute(cfg.History(rs, peer), t) <= 1 {
        LimitOneSpaces(cfg, rs, peer);
        SpacedHoldsOne(cfg.History(rs, peer), t);
      }
    } else if d == 0.0 {
      forall rs, peer, t | BackByAtMost(cfg, rs, peer, d) ensures InMinute(cfg.History(rs, peer), t) <= cfg.limit {
        NeverMoreThanLimit(cfg, rs, peer, t);
      }
    } else {
      ClockMustNotStepBack(cfg, d);
    }
  }

  // ---- peers do not affect each other ----

  function OnlyPeer(rs: seq<Request>, auth: string): seq<Request> {
    if rs == [] then []
    else
      var rest, r := OnlyPeer(rs[..|rs| - 1], auth), rs[|rs| - 1];
      if r.auth == auth then rest + [r] else rest
  }

  /** No other header in the run is digested to this peer's bucket. */
  predicate OwnBucket(cfg: Config, rs: seq<Request>, auth: string) {
    forall i | 0 <= i < |rs| && rs[i].auth != auth :: cfg.Peer(rs[i].auth) != cfg.Peer(auth)
  }

  /** What the peer keeps is the same with the others' requests and without them. */
  ghost predicate SameAlone(cfg: Config, rs: seq<Request>, alone: seq<Request>, auth: string) {
    && Bucket(cfg.Run(rs), cfg.Peer(auth)) == Bucket(cfg.Run(alone), cfg.Peer(auth))
    && cfg.History(rs, cfg.Peer(auth)) == cfg.History(alone, cfg.Peer(auth))
  }

  lemma OwnRequest(cfg: Config, rs: seq<Request>, alone: seq<Request>, r: Request)
    requires SameAlone(cfg, rs, alone, r.auth)
    ensures SameAlone(cfg, rs + [r], alone + [r], r.auth)
  {
    SameBucketSameDecision(cfg, cfg.Run(rs), cfg.Run(alone), r);
    OneMore(cfg, rs, r, cfg.Peer(r.auth));
    OneMore(cfg, alone, r, cfg.Peer(r.auth));
    hide Prune; hide TrimSlashes; hide Bucket;
  }

  lemma OtherRequest(cfg: Config, rs: seq<Request>, alone: seq<Request>, r: Request, auth: string)
    requires SameAlone(cfg, rs, alone, auth) && cfg.Peer(r.auth) != cfg.Peer(auth)
    ensures SameAlone(cfg, rs + [r], alone, auth)
  {
    OneMore(cfg, rs, r, cfg.Peer(auth));
    hide Prune; hide TrimSlashes; hide Bucket;
  }

  lemma {:induction false} SameBucketAlone(cfg: Config, rs: seq<Request>, auth: string)
    requires OwnBucket(cfg, rs, auth)
    ensures SameAlone(cfg, rs, OnlyPeer(rs, auth), auth)
  {
    if rs != [] {
      var front, r := rs[..|rs| - 1], rs[|rs| - 1];
      SameBucketAlone(cfg, front, auth);
      assert rs == front + [r];
      hide SameAlone;
      if r.auth == auth {
        OwnRequest(cfg, front, OnlyPeer(front, auth), r);
      } else {
        OtherRequest(cfg, front, OnlyPeer(front, auth), r, auth);
      }
    }
  }

  /** A peer's requests are decided, in any interleaving with other peers, exactly as if the
      peer were alone. */
  lemma DecidedAsIfAlone(cfg: Config, rs: seq<Request>, r: Request)
    requires OwnBucket(cfg, rs, r.auth)
    ensures cfg.Decide(cfg.Run(rs), r) == cfg.Decide(cfg.Run(OnlyPeer(rs, r.auth)), r)
  {
    SameBucketAlone(cfg, rs, r.auth);
    SameBucketSameDecision(cfg, cfg.Run(rs), cfg.Run(OnlyPeer(rs, r.auth)), r);
  }
}
