/** Which key each call returns: the file's if the file binds one, and otherwise the caller's own. */
module KeyOutcomes {
  import opened Options
  import opened Text
  import opened EnvFile
  import opened KeyBootstrap
  import opened KeyExclusion

  /** The key in the file, or else the one the caller was started with. */
  function KeyNow(s: State, c: Caller): Option<string> {
    if Published(s) then Some(FileEnv(s.file)[ENV_KEY])
    else if c in s.first && HasKey(s.first[c]) then Some(s.first[c][ENV_KEY])
    else None
  }

  // ---- a process that has just started ----

  /** From every file, a process with the environment it was started with returns the key that the
      file binds, or its own if the file does not name the key, and raises if the file is refused;
      otherwise it goes on to the lock. */
  lemma FreshCallReturns(s: State, c: Caller)
    requires c in s.pc && s.pc[c].Idle? && c in s.env && c in s.first && s.env[c] == s.first[c]
    ensures var t := Step(s, Advance(c)); var l := LoadFile(map[], s.file);
      t.Some? &&
      if !l.ok then t.value.outcomes == s.outcomes + [(c, Refused)]
      else if HasKey(l.env) then t.value.outcomes == s.outcomes + [(c, Key(l.env[ENV_KEY]))]
      else if HasKey(s.first[c]) && ENV_KEY !in l.env then
        t.value.outcomes == s.outcomes + [(c, Key(s.first[c][ENV_KEY]))]
      else t.value.outcomes == s.outcomes && c in t.value.pc && t.value.pc[c].Missing?
  {
    LoadMerges(s.env[c], s.file);
    hide LoadFile; hide Strip;
  }

  // ---- the check under the lock ----

  /** From every file, a caller that has just locked and loads the file again goes on to generate
      a key exactly if it finds none; and otherwise it leaves with what it found: its own further
      steps unlock, unlink the lock file and return that. */
  lemma LockedCallReturns(s: State, c: Caller)
    requires c in s.pc && s.pc[c].Locked? && c in s.env && c in s.first
    ensures var l := LoadFile(s.env[c], s.file); var e := Advance(c);
      if l.ok && !HasKey(l.env) then
        Step(s, e) == Some(s.(env := s.env[c := l.env]).Goto(c, Absent(s.pc[c].inode)))
      else
        var o := if l.ok then Key(l.env[ENV_KEY]) else Refused;
        Exec(s, [e, e, e]) == Some(s.(env := s.env[c := l.env], owner := s.owner - {s.pc[c].inode}, lockPath := None)
                                    .Finish(c, o))
  {
    var l, e := LoadFile(s.env[c], s.file), Advance(c);
    hide LoadFile; hide HasKey;
    if !(l.ok && !HasKey(l.env)) {
      var o := if l.ok then Key(l.env[ENV_KEY]) else Refused;
      var s1 := s.(env := s.env[c := l.env]).Goto(c, Leaving(s.pc[c].inode, o));
      assert Step(s, e) == Some(s1);
      LeavesWith(s1, c);
      assert [e, e, e][1..] == [e, e];
      assert s1.pc[c := Idle] == s.pc[c := Idle];
    }
  }

  /** A caller that leaves returns what it leaves with. */
  lemma LeavesWith(s: State, c: Caller)
    requires c in s.pc && s.pc[c].Leaving? && c in s.env && c in s.first
    ensures var e := Advance(c);
      Exec(s, [e, e]) ==
        Some(s.(owner := s.owner - {s.pc[c].inode}, lockPath := None).Finish(c, s.pc[c].outcome))
  {
    hide LoadFile; hide HasKey;
    var e := Advance(c);
    var s1 := s.(owner := s.owner - {s.pc[c].inode}).Goto(c, Closed(s.pc[c].outcome));
    assert Step(s, e) == Some(s1);
    var s2 := s1.(lockPath := None).Finish(c, s.pc[c].outcome);
    assert Step(s1, e) == Some(s2);
    assert s2.pc == s.pc[c := Idle];
    assert [e, e][1..] == [e] && [e][1..] == [];
    assert Exec(s1, [e]) == Some(s2);
  }

  // ---- an environment has the caller's own key until there is one in the file ----

  predicate OwnKey(env: Environ, first: Environ) {
    HasKey(env) ==> HasKey(first) && env[ENV_KEY] == first[ENV_KEY]
  }

  ghost predicate Owned(s: State) {
    !Published(s) ==> forall c | c in s.pc :: c in s.env && c in s.first && OwnKey(s.env[c], s.first[c])
  }

  /** A check of a file that binds no key adds none. */
  lemma CheckKeepsOwn(env: Environ, file: Option<string>, first: Environ)
    requires OwnKey(env, first) && !HasKey(FileEnv(file))
    ensures OwnKey(LoadFile(env, file).env, first)
  {
    LoadMerges(env, file);
    hide LoadFile; hide Strip;
  }

  /** What a step leaves in the caller's environment before there is a key in the file. */
  lemma AdvanceKeepsOwn(s: State, c: Caller, first: Environ)
    requires c in s.pc && c in s.env && AdvanceStep(s, c).Some? && !s.pc[c].Past()
    requires OwnKey(s.env[c], first) && !Published(s)
    ensures var t := AdvanceStep(s, c).value; c in t.env && OwnKey(t.env[c], first)
  {
    CheckKeepsOwn(s.env[c], s.file, first);
    hide LoadFile; hide OwnKey; hide Contains; hide Rewrite; hide HasKey;
  }

  lemma StepKeepsOwned(s: State, e: Event)
    requires Inv(s) && Owned(s) && Step(s, e).Some?
    ensures Owned(Step(s, e).value)
  {
    var t, c := Step(s, e).value, e.c;
    StepMoves(s, e);
    if Published(s) {
      StaysPublished(s, e);
    } else if !Published(t) {
      SideOf(s, c, FileEnv(s.file));
      if e.Advance? { AdvanceKeepsOwn(s, c, s.first[c]); }
    }
    hide Inv; hide Published; hide AdvanceStep; hide OwnKey; hide IsKey;
  }

  lemma StaysPublished(s: State, e: Event)
    requires Inv(s) && Published(s) && Step(s, e).Some?
    ensures Step(s, e).value.file == s.file
  {
    assert [e][1..] == [];
    assert Exec(s, [e]) == Exec(Step(s, e).value, []);
    PublishedIsFinal(s, [e]);
    hide Inv; hide Step; hide Published;
  }

  // ---- the outcome of a call ----

  lemma FirstCheckReturns(s: State, c: Caller)
    requires Inv(s) && Owned(s) && c in s.pc && s.pc[c].Idle? && c in s.env && c in s.first
    ensures var t := AdvanceStep(s, c);
      && t.Some? && c in t.value.pc
      && t.value.outcomes == s.outcomes + (if t.value.pc[c].Idle? && KeyNow(s, c).Some?
                                           then [(c, Key(KeyNow(s, c).value))] else [])
      && (t.value.pc[c].Idle? ==> KeyNow(s, c).Some?)
  {
    LoadMerges(s.env[c], s.file);
    assert LoadFile(s.env[c], s.file).ok;
    var b := FileEnv(s.file);
    OverlayHasKey(s.env[c], b);
    assert OwnKey(s.env[c], s.first[c]) || Published(s);
    hide Inv; hide LoadFile; hide Strip; hide Owned;
  }

  /** Between the first check and the end nothing is returned. */
  lemma InnerStep(s: State, c: Caller)
    requires c in s.pc && !s.pc[c].Idle? && !s.pc[c].Past() && c in s.env && AdvanceStep(s, c).Some?
    ensures var t := AdvanceStep(s, c).value; c in t.pc && !t.pc[c].Idle? && t.outcomes == s.outcomes
  {
    hide LoadFile; hide HasKey; hide Contains; hide Rewrite;
  }

  lemma LastStepReturns(s: State, c: Caller)
    requires Inv(s) && c in s.pc && !s.pc[c].Idle? && c in s.env && AdvanceStep(s, c).Some?
    ensures var t := AdvanceStep(s, c).value;
      && c in t.pc && (t.pc[c].Idle? <==> s.pc[c].Closed?)
      && t.outcomes == s.outcomes + (if t.pc[c].Idle? && Published(s) then [(c, Key(FileEnv(s.file)[ENV_KEY]))] else [])
      && (t.pc[c].Idle? ==> Published(s))
  {
    SideOf(s, c, FileEnv(s.file));
    assert s.outcomes + [] == s.outcomes;
    hide Inv; hide LoadFile; hide HasKey; hide FirstCheck; hide SecondCheck; hide OpenLock; hide StartWrite;
    if !s.pc[c].Past() {
      InnerStep(s, c);
      hide AdvanceStep;
    }
  }

  /** In every reachable state, crashes included, a step ends a call exactly if it takes its caller
      back to where it started without a crash; and then the call returns the key that the file
      binds at that moment or, if it binds none, the key its caller was started with. Every caller
      is meant, those that start with a key included. */
  lemma CallReturns(file: Option<string>, first: map<Caller, Environ>, events: seq<Event>, e: Event)
    requires LoadFile(map[], file).ok && (HasKey(FileEnv(file)) || SafeToRewrite(file))
    requires Exec(Start(file, first), events).Some? && Step(Exec(Start(file, first), events).value, e).Some?
    ensures var s := Exec(Start(file, first), events).value; var t := Step(s, e).value;
      var k := if HasKey(FileEnv(s.file)) then FileEnv(s.file)[ENV_KEY]
               else if e.c in first && HasKey(first[e.c]) then first[e.c][ENV_KEY] else "";
      && e.c in t.pc
      && (if e.Advance? && t.pc[e.c].Idle? then IsPresent(k) && t.outcomes == s.outcomes + [(e.c, Key(k))]
          else t.outcomes == s.outcomes)
  {
    StartInv(file, first);
    StartOwned(file, first);
    RunOwns(Start(file, first), events);
    var s := Exec(Start(file, first), events).value;
    StepMoves(s, e);
    SideOf(s, e.c, FileEnv(s.file));
    if e.Advance? {
      if s.pc[e.c].Idle? { FirstCheckReturns(s, e.c); } else { LastStepReturns(s, e.c); }
    }
    hide Inv; hide Exec; hide LoadFile; hide AdvanceStep; hide IsKey; hide Strip;
  }

  predicate IsPresent(k: string) {
    Strip(k) != ""
  }

  lemma StartOwned(file: Option<string>, first: map<Caller, Environ>)
    ensures Owned(Start(file, first))
  {
    hide HasKey; hide LoadFile;
  }

  lemma {:induction false} RunOwns(s: State, events: seq<Event>)
    requires Inv(s) && Owned(s) && Exec(s, events).Some?
    ensures var t := Exec(s, events).value; Inv(t) && Owned(t) && t.first == s.first
    decreases |events|
  {
    if events != [] {
      StepKeeps(s, events[0]);
      StepKeepsOwned(s, events[0]);
      StepMoves(s, events[0]);
      hide Inv; hide Owned; hide Step;
      RunOwns(Step(s, events[0]).value, events[1..]);
    }
  }

  // ---- all the outcomes of a run ----

  /** Every outcome is the key of the file. */
  predicate AllReturn(s: State, k: string) {
    forall i | 0 <= i < |s.outcomes| :: s.outcomes[i].1 == Key(k)
  }

  lemma {:induction false} PublishedRun(s: State, events: seq<Event>, k: string)
    requires Inv(s) && Owned(s) && Published(s) && FileEnv(s.file)[ENV_KEY] == k && AllReturn(s, k)
    requires Exec(s, events).Some?
    ensures AllReturn(Exec(s, events).value, k)
    decreases |events|
  {
    if events != [] {
      var e := events[0];
      StepKeeps(s, e);
      StepKeepsOwned(s, e);
      StaysPublished(s, e);
      PublishedStep(s, e);
      hide Inv; hide Owned; hide Step; hide HasKey; hide FileEnv;
      PublishedRun(Step(s, e).value, events[1..], k);
    }
  }

  lemma PublishedStep(s: State, e: Event)
    requires Inv(s) && Owned(s) && Published(s) && Step(s, e).Some?
    ensures var t := Step(s, e).value;
      t.outcomes == s.outcomes || t.outcomes == s.outcomes + [(e.c, Key(FileEnv(s.file)[ENV_KEY]))]
  {
    SideOf(s, e.c, FileEnv(s.file));
    if e.Advance? {
      if s.pc[e.c].Idle? { FirstCheckReturns(s, e.c); } else { LastStepReturns(s, e.c); }
    }
    hide Inv; hide LoadFile; hide AdvanceStep; hide IsKey; hide Strip;
  }

  /** If the file loads and binds a key, every call of every run returns that key, whatever key its
      caller was started with. */
  lemma FileKeyIsReturned(file: Option<string>, first: map<Caller, Environ>, events: seq<Event>)
    requires LoadFile(map[], file).ok && HasKey(FileEnv(file)) && Exec(Start(file, first), events).Some?
    ensures var t := Exec(Start(file, first), events).value;
      forall i | 0 <= i < |t.outcomes| :: t.outcomes[i].1 == Key(FileEnv(file)[ENV_KEY])
  {
    StartInv(file, first);
    StartOwned(file, first);
    PublishedRun(Start(file, first), events, FileEnv(file)[ENV_KEY]);
  }

  ghost predicate AllRefused(s: State) {
    AllIdle(s) && forall i | 0 <= i < |s.outcomes| :: s.outcomes[i].1 == Refused
  }

  lemma {:induction false} RefusedRun(s: State, events: seq<Event>)
    requires !LoadFile(map[], s.file).ok && AllRefused(s) && Exec(s, events).Some?
    ensures AllRefused(Exec(s, events).value) && Exec(s, events).value.file == s.file
    decreases |events|
  {
    if events != [] {
      RefusedStep(s, events[0]);
      hide AllRefused; hide LoadFile; hide Step;
      RefusedRun(Step(s, events[0]).value, events[1..]);
    }
  }

  lemma RefusedStep(s: State, e: Event)
    requires !LoadFile(map[], s.file).ok && AllRefused(s) && Step(s, e).Some?
    ensures var t := Step(s, e).value; AllRefused(t) && t.file == s.file
  {
    LoadMerges(s.env[e.c], s.file);
    hide HasKey; hide LoadFile; hide IsKey;
  }

  /** If the file is refused, every call of every run raises. */
  lemma RefusedFileRaises(file: Option<string>, first: map<Caller, Environ>, events: seq<Event>)
    requires !LoadFile(map[], file).ok && Exec(Start(file, first), events).Some?
    ensures var t := Exec(Start(file, first), events).value;
      t.file == file && forall i | 0 <= i < |t.outcomes| :: t.outcomes[i].1 == Refused
  {
    RefusedRun(Start(file, first), events);
  }

  // ---- where a published key comes from ----

  /** The keys being written, and the one in the file, were generated. */
  ghost predicate FromGenerated(s: State) {
    && (forall c | c in s.pc && s.pc[c].Writing() :: s.pc[c].key in s.generated)
    && (Published(s) ==> FileEnv(s.file)[ENV_KEY] in s.generated)
  }

  lemma WriteStores(s: State, c: Caller)
    requires Inv(s) && c in s.pc && c in s.env && (s.pc[c].Read? || s.pc[c].Truncated?) && AdvanceStep(s, c).Some?
    ensures var t := AdvanceStep(s, c).value;
      && t.generated == s.generated && c in t.pc && (t.pc[c].Writing() ==> t.pc[c].key == s.pc[c].key)
      && (Published(t) ==> FileEnv(t.file)[ENV_KEY] == s.pc[c].key)
  {
    SideOf(s, c, FileEnv(s.file));
    EmptyFile();
    if s.pc[c].Read? { RewriteReadsBack(s.file, s.pc[c].key); }
    hide Inv; hide HasKey; hide SafeToRewrite; hide IsKey; hide Contains; hide LoadLines; hide Split; hide OtherLines;
  }

  lemma StepKeepsGenerated(s: State, e: Event)
    requires Inv(s) && FromGenerated(s) && Step(s, e).Some?
    ensures FromGenerated(Step(s, e).value)
  {
    var t, c := Step(s, e).value, e.c;
    StepMoves(s, e);
    SideOf(s, c, FileEnv(s.file));
    if e.Advance? {
      if s.pc[c].Read? || s.pc[c].Truncated? {
        WriteStores(s, c);
      } else {
        ReadOnlyFrame(s, c);
        StartsToRead(s, c);
      }
    }
    hide Inv; hide Published; hide FileEnv; hide AdvanceStep; hide IsKey;
  }

  lemma StartsToRead(s: State, c: Caller)
    requires c in s.pc && c in s.env && !s.pc[c].Read? && !s.pc[c].Truncated? && AdvanceStep(s, c).Some?
    ensures var t := AdvanceStep(s, c).value;
      c in t.pc && (t.pc[c].Writing() ==> s.pc[c].Writing() && t.pc[c].key == s.pc[c].key)
  {
    if s.pc[c].Idle? || s.pc[c].Locked? {
      CheckOutcomes(s, c, if s.pc[c].Idle? then 0 else s.pc[c].inode, LoadFile(s.env[c], s.file));
    }
    hide HasKey; hide LoadFile; hide FirstCheck; hide SecondCheck;
  }

  lemma {:induction false} RunKeepsGenerated(s: State, events: seq<Event>)
    requires Inv(s) && FromGenerated(s) && Exec(s, events).Some?
    ensures FromGenerated(Exec(s, events).value)
    decreases |events|
  {
    if events != [] {
      StepKeeps(s, events[0]);
      StepKeepsGenerated(s, events[0]);
      hide Inv; hide FromGenerated; hide Step;
      RunKeepsGenerated(Step(s, events[0]).value, events[1..]);
    }
  }

  /** A key that comes into the file during a run was generated during it. */
  lemma PublishedWasGenerated(file: Option<string>, first: map<Caller, Environ>, events: seq<Event>)
    requires LoadFile(map[], file).ok && !HasKey(FileEnv(file)) && SafeToRewrite(file)
    requires Exec(Start(file, first), events).Some?
    ensures var t := Exec(Start(file, first), events).value;
      HasKey(FileEnv(t.file)) ==> FileEnv(t.file)[ENV_KEY] in t.generated
  {
    StartInv(file, first);
    RunKeepsGenerated(Start(file, first), events);
    hide Inv; hide Exec; hide LoadFile; hide HasKey;
  }

  // ---- one caller alone is the uninterrupted call ----

  /** A caller that runs alone ends where one uninterrupted call does: with the same outcome, file
      and environment, the lock file gone and nothing locked. */
  lemma AloneIsUninterrupted(file: Option<string>, c: Caller, env: Environ, k: string)
    requires IsKey(k)
    ensures var l := LoadFile(env, file);
      exists t | Reaches(Start(file, map[c := env]), t) ::
        && c in t.pc && t.pc[c].Idle? && t.lockPath.None? && t.owner == map[] && c in t.env
        && (!l.ok ==> t.outcomes == [(c, Refused)] && t.file == file && t.env[c] == l.env)
        && (l.ok && HasKey(l.env) ==> t.outcomes == [(c, Key(l.env[ENV_KEY]))] && t.file == file && t.env[c] == l.env)
        && (l.ok && !HasKey(l.env) ==>
              t.outcomes == [(c, Key(k))] && t.file == Some(Rewrite(file, k)) && t.env[c] == l.env[ENV_KEY := k])
  {
    var s := Start(file, map[c := env]);
    var l := LoadFile(env, file);
    ReachSelf(s);
    hide LoadFile; hide HasKey; hide IsKey; hide Rewrite;
    if l.ok && !HasKey(l.env) {
      hide Reaches;
      RunsToCalled(s, s, c, k);
      var t := Called(s, c, k);
      assert Reaches(s, t);
    } else {
      var t := AloneEnds(s, c);
    }
  }

  lemma AloneEnds(s: State, c: Caller) returns (t: State)
    requires c in s.pc && s.pc[c].Idle? && c in s.env && c in s.first
    requires var l := LoadFile(s.env[c], s.file); !l.ok || HasKey(l.env)
    ensures var l := LoadFile(s.env[c], s.file);
      && Reaches(s, t) && t.file == s.file && t.lockPath == s.lockPath && t.owner == s.owner
      && c in t.pc && t.pc[c].Idle? && c in t.env && t.env[c] == l.env
      && t.outcomes == s.outcomes + [(c, if l.ok then Key(l.env[ENV_KEY]) else Refused)]
  {
    ReachSelf(s);
    hide Reaches; hide LoadFile; hide HasKey;
    ReachStep(s, s, Advance(c));
    t := Step(s, Advance(c)).value;
  }
}
