/** What becomes of the rest of the file while callers race to store a key in it, and die. */
module KeyDurability {
  import opened Options
  import opened Text
  import opened EnvFile
  import opened KeyBootstrap
  import opened KeyExclusion

  /** The file binds what it is to bind beside the key. */
  function Others(file: Option<string>): Environ {
    FileEnv(file) - {ENV_KEY}
  }

  /** Somebody has truncated the file and not written it yet. */
  ghost predicate MidWrite(s: State) {
    exists c :: c in s.pc && s.pc[c].Truncated?
  }

  /** The text is a rewrite of the original or, if it may have been lost, of the empty text. */
  ghost predicate RewriteOf(text: string, k: string, file: Option<string>, lost: bool) {
    IsKey(k) && (text == Rewrite(file, k) || (lost && text == Rewrite(Some(""), k)))
  }

  /** The file is the original; or it is empty, while it is being rewritten or because it was
      lost; or, with the key in it, it is a rewrite. */
  ghost predicate Tracks(s: State, file: Option<string>, lost: bool) {
    && (!Published(s) ==> s.file == file || (s.file == Some("") && (lost || MidWrite(s))))
    && (Published(s) ==> s.file == file || exists k :: s.file.Some? && RewriteOf(s.file.value, k, file, lost))
    && (forall c | c in s.pc && s.pc[c].Truncated? :: RewriteOf(s.pc[c].text, s.pc[c].key, file, lost))
  }

  // ---- the steps ----

  /** Steps that keep the file and truncate nothing. */
  lemma StillTracks(s: State, t: State, c: Caller, file: Option<string>, lost: bool)
    requires Tracks(s, file, lost) && Moves(s, t, c) && t.file == s.file && !t.pc[c].Truncated?
    requires s.pc[c].Truncated? ==> lost
    ensures Tracks(t, file, lost)
  {
    hide HasKey; hide LoadFile; hide RewriteOf;
    if MidWrite(s) && !lost {
      var d :| d in s.pc && s.pc[d].Truncated?;
      assert d in t.pc && t.pc[d].Truncated?;
    }
  }

  /** Before publication nobody else is truncating while a caller holds the lock. */
  lemma NobodyElseTruncates(s: State, c: Caller)
    requires Inv(s) && c in s.pc && s.pc[c].HoldsLock() && !Published(s)
    ensures forall d | d in s.pc && d != c :: !s.pc[d].Truncated?
  {
    Alone(s, c);
    hide Inv;
  }

  /** What the moving caller leaves decides, if nobody else is truncating. */
  lemma AloneTracks(s: State, t: State, c: Caller, text: string, file: Option<string>, lost: bool)
    requires c in s.pc && (forall d | d in s.pc && d != c :: !s.pc[d].Truncated?) && c in t.pc
    requires t.pc == s.pc[c := t.pc[c]] && (t.pc[c].Stored? || t.pc[c].Truncated?)
    requires RewriteOf(text, t.pc[c].key, file, lost)
    requires (t.pc[c].Stored? && t.file == Some(text) && Published(t))
      || (t.pc[c].Truncated? && t.pc[c].text == text && t.file == Some("") && !Published(t))
    ensures Tracks(t, file, lost)
  {
    hide RewriteOf; hide Published;
    assert forall d | d in t.pc && t.pc[d].Truncated? :: d == c;
  }

  /** A writer that truncates keeps the rewrite to write next. */
  lemma TruncatingTracks(s: State, t: State, c: Caller, file: Option<string>, lost: bool)
    requires Inv(s) && Tracks(s, file, lost) && c in s.pc && s.pc[c].Read? && !Published(s)
    requires t == s.(file := Some("")).Goto(c, Truncated(s.pc[c].inode, s.pc[c].key, Rewrite(s.file, s.pc[c].key)))
    ensures Tracks(t, file, lost)
  {
    ReadIsCurrent(s, c, file, lost);
    NobodyElseTruncates(s, c);
    EmptyIsUnpublished(t);
    hide Inv; hide Tracks; hide RewriteOf; hide Published; hide Rewrite;
    AloneTracks(s, t, c, Rewrite(s.file, s.pc[c].key), file, lost);
  }

  lemma EmptyIsUnpublished(t: State)
    requires t.file == Some("")
    ensures !Published(t)
  {
    EmptyBindsNothing();
  }

  /** The write that publishes leaves a rewrite, and nobody is in the middle of another one. */
  lemma PublishingTracks(s: State, t: State, c: Caller, text: string, file: Option<string>, lost: bool)
    requires Inv(s) && c in s.pc && s.pc[c].Writing() && !Published(s)
    requires RewriteOf(text, s.pc[c].key, file, lost) && ReadsBack(text, s.pc[c].key)
    requires t == s.(file := Some(text)).Goto(c, Stored(s.pc[c].inode, s.pc[c].key))
    ensures Tracks(t, file, lost)
  {
    assert IsKey(s.pc[c].key);
    KeyInText(text, s.pc[c].key);
    NobodyElseTruncates(s, c);
    hide Inv; hide Tracks; hide RewriteOf; hide ReadsBack; hide IsKey; hide FileEnv; hide HasKey;
    AloneTracks(s, t, c, text, file, lost);
  }

  lemma WriteTracks(s: State, c: Caller, file: Option<string>, lost: bool)
    requires Inv(s) && Tracks(s, file, lost) && c in s.pc && c in s.env && (s.pc[c].Read? || s.pc[c].Truncated?)
    requires AdvanceStep(s, c).Some?
    ensures Tracks(AdvanceStep(s, c).value, file, lost)
  {
    SideOf(s, c, FileEnv(s.file));
    var t, k := AdvanceStep(s, c).value, s.pc[c].key;
    if s.pc[c].Truncated? {
      assert RewriteOf(s.pc[c].text, k, file, lost);
      PublishingTracks(s, t, c, s.pc[c].text, file, lost);
    } else {
      ReadIsCurrent(s, c, file, lost);
      RewriteReadsBack(s.file, k);
      hide Inv; hide Tracks; hide IsKey; hide LoadFile; hide HasKey; hide SafeToRewrite; hide RewriteOf; hide ReadsBack;
      if t.pc[c].Truncated? {
        TruncatingTracks(s, t, c, file, lost);
      } else {
        PublishingTracks(s, t, c, Rewrite(s.file, k), file, lost);
      }
    }
  }

  /** What a writer read is the file, and that is the original, or lost. */
  lemma ReadIsCurrent(s: State, c: Caller, file: Option<string>, lost: bool)
    requires Inv(s) && Tracks(s, file, lost) && c in s.pc && s.pc[c].Read? && !Published(s)
    ensures s.pc[c].content == s.file && IsKey(s.pc[c].key)
    ensures RewriteOf(Rewrite(s.file, s.pc[c].key), s.pc[c].key, file, lost)
  {
    SideOf(s, c, FileEnv(s.file));
    NobodyElseTruncates(s, c);
    hide Inv; hide Published; hide HasKey; hide LoadFile; hide IsKey; hide Rewrite;
    assert !MidWrite(s);
  }

  /** A crash loses the file only if it comes between truncating and writing. */
  lemma StepTracks(s: State, e: Event, file: Option<string>, lost: bool)
    requires Inv(s) && Tracks(s, file, lost) && Step(s, e).Some?
    requires lost || !e.Crash? || !s.pc[e.c].Truncated?
    ensures Tracks(Step(s, e).value, file, lost)
  {
    var t, c := Step(s, e).value, e.c;
    StepMoves(s, e);
    if e.Advance? && (s.pc[c].Read? || s.pc[c].Truncated?) {
      SideOf(s, c, FileEnv(s.file));
      WriteTracks(s, c, file, lost);
    } else {
      QuietStep(s, e);
      hide Inv; hide Step; hide Tracks;
      StillTracks(s, t, c, file, lost);
    }
  }

  lemma QuietStep(s: State, e: Event)
    requires Step(s, e).Some? && !(e.Advance? && (s.pc[e.c].Read? || s.pc[e.c].Truncated?))
    ensures var t := Step(s, e).value;
      t.file == s.file && e.c in t.pc && !t.pc[e.c].Truncated? && (s.pc[e.c].Truncated? ==> e.Crash?)
  {
    if e.Advance? {
      ReadOnlyFrame(s, e.c);
      NeverTruncates(s, e.c);
    }
    hide AdvanceStep; hide IsKey;
  }

  lemma NeverTruncates(s: State, c: Caller)
    requires c in s.pc && c in s.env && !s.pc[c].Read? && !s.pc[c].Truncated? && AdvanceStep(s, c).Some?
    ensures var t := AdvanceStep(s, c).value; c in t.pc && !t.pc[c].Truncated?
  {
    hide HasKey; hide LoadFile;
  }

  lemma StartTracks(file: Option<string>, first: map<Caller, Environ>, lost: bool)
    ensures Tracks(Start(file, first), file, lost)
  {
    hide HasKey; hide LoadFile;
  }

  // ---- over whole runs ----

  lemma {:induction false} RunTracks(s: State, file: Option<string>, lost: bool, events: seq<Event>)
    requires Inv(s) && Tracks(s, file, lost) && Exec(s, events).Some?
    requires lost || forall e | e in events :: !e.Crash?
    ensures Inv(Exec(s, events).value) && Tracks(Exec(s, events).value, file, lost)
    decreases |events|
  {
    if events != [] {
      var e := events[0];
      assert e in events && forall f | f in events[1..] :: f in events;
      StepKeeps(s, e);
      StepTracks(s, e, file, lost);
      hide Inv; hide Tracks; hide Step;
      RunTracks(Step(s, e).value, file, lost, events[1..]);
    }
  }

  /** Without crashes, from a file that loads and binds the key or is safe to rewrite, the file is
      at every moment the original, or in the middle of its one rewriting, or that rewrite. */
  lemma CleanRunsRewriteOnce(file: Option<string>, first: map<Caller, Environ>, events: seq<Event>)
    requires LoadFile(map[], file).ok && (HasKey(FileEnv(file)) || SafeToRewrite(file))
    requires Exec(Start(file, first), events).Some? && forall e | e in events :: !e.Crash?
    ensures var t := Exec(Start(file, first), events).value;
      || t.file == file
      || (t.file == Some("") && MidWrite(t))
      || exists k :: IsKey(k) && t.file == Some(Rewrite(file, k))
  {
    StartInv(file, first);
    StartTracks(file, first, false);
    RunTracks(Start(file, first), file, false, events);
    var t := Exec(Start(file, first), events).value;
    hide Inv; hide Exec; hide LoadFile; hide HasKey; hide Rewrite; hide IsKey; hide MidWrite;
    if Published(t) && t.file != file {
      var k :| t.file.Some? && RewriteOf(t.file.value, k, file, false);
      assert IsKey(k) && t.file == Some(Rewrite(file, k));
    }
  }

  /** A rewrite keeps what the original bound beside the key. */
  lemma RewriteKeepsOthers(file: Option<string>, k: string)
    requires LoadFile(map[], file).ok && SafeToRewrite(file) && IsKey(k)
    ensures Others(Some(Rewrite(file, k))) == Others(file)
  {
    SafeRewriteKeepsBindings(file, k);
    assert LoadFile(map[], Some(Rewrite(file, k))) == Bindings(Rewrite(file, k));
    var env := FileEnv(file);
    assert FileEnv(Some(Rewrite(file, k))) == env[ENV_KEY := k];
    assert env[ENV_KEY := k] - {ENV_KEY} == env - {ENV_KEY};
  }

  /** So without crashes no race loses a binding: whenever nobody is in the middle of writing, the
      file binds beside the key what it bound at first. */
  lemma CleanRunsKeepOthers(file: Option<string>, first: map<Caller, Environ>, events: seq<Event>)
    requires LoadFile(map[], file).ok && (HasKey(FileEnv(file)) || SafeToRewrite(file))
    requires Exec(Start(file, first), events).Some? && forall e | e in events :: !e.Crash?
    ensures var t := Exec(Start(file, first), events).value; !MidWrite(t) ==> Others(t.file) == Others(file)
  {
    var t := Exec(Start(file, first), events).value;
    CleanRunsRewriteOnce(file, first, events);
    if HasKey(FileEnv(file)) {
      StartInv(file, first);
      PublishedIsFinal(Start(file, first), events);
    } else if k :| IsKey(k) && t.file == Some(Rewrite(file, k)) {
      RewriteKeepsOthers(file, k);
    }
    hide Inv; hide Exec; hide LoadFile; hide HasKey; hide Rewrite; hide IsKey; hide MidWrite;
  }

  // ---- with crashes ----

  /** A file that rewriting truncates, although it binds something beside the key. */
  predicate AtRisk(file: Option<string>) {
    && !Settled(file) && file.Some? && Contains(file.value, KEY_PREFIX)
    && Others(file) != map[]
  }

  /** In every reachable state in which nobody is in the middle of writing, the file binds beside
      the key what it bound at first. */
  ghost predicate OthersSurvive(file: Option<string>, first: map<Caller, Environ>) {
    forall t | Reaches(Start(file, first), t) && !MidWrite(t) :: Others(t.file) == Others(file)
  }

  /** Nobody truncates while the file is one that is appended to. */
  ghost predicate Appending(s: State, file: Option<string>) {
    Tracks(s, file, false) && !MidWrite(s)
  }

  lemma StepAppends(s: State, e: Event, file: Option<string>)
    requires Inv(s) && Appending(s, file) && Step(s, e).Some? && file.Some? && !Contains(file.value, KEY_PREFIX)
    ensures Appending(Step(s, e).value, file)
  {
    StepMoves(s, e);
    assert !s.pc[e.c].Truncated?;
    StepTracks(s, e, file, false);
    if e.Advance? && s.pc[e.c].Read? {
      SideOf(s, e.c, FileEnv(s.file));
      ReadIsCurrent(s, e.c, file, false);
      assert s.file == file;
      AppendsInOneStep(s, e.c);
    } else {
      QuietStep(s, e);
    }
    hide Inv; hide Step; hide Tracks; hide HasKey; hide LoadFile; hide Contains;
  }

  lemma AppendsInOneStep(s: State, c: Caller)
    requires c in s.pc && c in s.env && s.pc[c].Read? && s.pc[c].content.Some?
    requires !Contains(s.pc[c].content.value, KEY_PREFIX)
    ensures AdvanceStep(s, c).Some? && c in AdvanceStep(s, c).value.pc && AdvanceStep(s, c).value.pc[c].Stored?
  {
    hide Contains;
  }

  lemma {:induction false} RunAppends(s: State, file: Option<string>, events: seq<Event>)
    requires Inv(s) && Appending(s, file) && Exec(s, events).Some? && file.Some? && !Contains(file.value, KEY_PREFIX)
    ensures Appending(Exec(s, events).value, file)
    decreases |events|
  {
    if events != [] {
      StepKeeps(s, events[0]);
      StepAppends(s, events[0], file);
      hide Inv; hide Appending; hide Step; hide Contains;
      RunAppends(Step(s, events[0]).value, file, events[1..]);
    }
  }

  /** A file that is only appended to, or that binds nothing else, keeps its bindings. */
  lemma TrackedKeepsOthers(t: State, file: Option<string>, lost: bool)
    requires LoadFile(map[], file).ok && SafeToRewrite(file) && Tracks(t, file, lost) && !MidWrite(t)
    requires lost ==> Others(file) == map[]
    ensures Others(t.file) == Others(file)
  {
    EmptyFile();
    EmptyBindsNothing();
    if Published(t) && t.file != file {
      var k :| t.file.Some? && RewriteOf(t.file.value, k, file, lost);
      RewriteKeepsOthers(file, k);
      RewriteKeepsOthers(Some(""), k);
    }
    hide HasKey; hide LoadFile; hide Rewrite; hide IsKey; hide SafeToRewrite;
  }

  lemma {:induction false} KeyedRunKeepsFile(s: State, file: Option<string>, events: seq<Event>)
    requires KeyedAreIdle(s, file) && Exec(s, events).Some? && forall c :: !Keyless(file, s.first, c)
    ensures Exec(s, events).value.file == s.file
    decreases |events|
  {
    if events != [] {
      var e := events[0];
      StepMoves(s, e);
      assert e.c in s.pc && !Keyless(file, s.first, e.c);
      KeyedStep(s, e);
      KeyedStayIdle(s, e, file);
      hide KeyedAreIdle; hide Step; hide Keyless;
      KeyedRunKeepsFile(Step(s, e).value, file, events[1..]);
    }
  }

  lemma SafeRunKeepsOthers(file: Option<string>, first: map<Caller, Environ>, events: seq<Event>)
    requires Settled(file) || SafeToRewrite(file)
    requires Exec(Start(file, first), events).Some? && !MidWrite(Exec(Start(file, first), events).value)
    requires !AtRisk(file) || forall c :: !Keyless(file, first, c)
    ensures Others(Exec(Start(file, first), events).value.file) == Others(file)
  {
    var s := Start(file, first);
    var t := Exec(s, events).value;
    if Settled(file) {
      SettledRun(s, events);
    } else if forall c :: !Keyless(file, first, c) {
      StartKeyedIdle(file, first);
      KeyedRunKeepsFile(s, file, events);
    } else {
      StartInv(file, first);
      if Others(file) == map[] {
        StartTracks(file, first, true);
        RunTracks(s, file, true, events);
        TrackedKeepsOthers(t, file, true);
      } else {
        NothingHasNoOthers();
        StartTracks(file, first, false);
        assert !MidWrite(s);
        RunAppends(s, file, events);
        TrackedKeepsOthers(t, file, false);
      }
    }
    hide *;
  }

  lemma NothingHasNoOthers()
    ensures Others(None) == map[]
  {
  }

  /** The state of a caller that has truncated the file and holds the rewritten text. */
  function Emptied(s: State, c: Caller, k: string): State
    requires c in s.pc && s.pc[c].Absent?
  {
    s.(file := Some(""), generated := s.generated + [k],
       pc := s.pc[c := Truncated(s.pc[c].inode, k, Rewrite(s.file, k))])
  }

  lemma RunsToEmptied(s0: State, s: State, c: Caller, k: string)
    requires Reaches(s0, s) && c in s.pc && c in s.env && c in s.first && s.pc[c].Absent? && IsKey(k)
    requires s.file.Some? && Contains(s.file.value, KEY_PREFIX)
    ensures Reaches(s0, Emptied(s, c, k))
  {
    hide IsKey; hide Contains; hide Rewrite; hide Reaches;
    var e := Advance(c);
    ReachStep(s0, s, Generate(c, k));
    var s1 := Step(s, Generate(c, k)).value;
    ReachStep(s0, s1, e);
    var s2 := Step(s1, e).value;
    ReachStep(s0, s2, e);
    assert Step(s2, e).value == Emptied(s, c, k);
  }

  /** A keyless caller that dies between truncating and writing loses everything else in the
      file. */
  lemma CrashLosesFile(file: Option<string>, first: map<Caller, Environ>, c: Caller)
    requires LoadFile(map[], file).ok && Keyless(file, first, c)
    requires file.Some? && Contains(file.value, KEY_PREFIX)
    ensures exists t | Reaches(Start(file, first), t) :: t.file == Some("") && !MidWrite(t) && t.crashes == 1
  {
    var s0 := Start(file, first);
    ReachSelf(s0);
    LoadMerges(first[c], file);
    assert IsKey("A") && Ready(s0, c);
    hide Reaches; hide HasKey; hide LoadFile; hide IsKey; hide Contains; hide FileEnv; hide Keyless; hide Ready;
    hide Rewrite;
    RunsToHolding(s0, s0, c);
    RunsToEmptied(s0, Holding(s0, c), c, "A");
    var s1 := Emptied(Holding(s0, c), c, "A");
    ReachStep(s0, s1, Crash(c));
    var t := Step(s1, Crash(c)).value;
    assert forall d | d in t.pc :: t.pc[d].Idle?;
  }

  /** Exactly when the other bindings survive all interleavings and crashes, from a file that is
      refused, binds the key or is safe to rewrite: the file is not at risk, or every caller has a
      key to begin with. */
  lemma OthersSurviveExactly(file: Option<string>, first: map<Caller, Environ>)
    requires Settled(file) || SafeToRewrite(file)
    ensures OthersSurvive(file, first) <==> !AtRisk(file) || forall c :: !Keyless(file, first, c)
  {
    var s := Start(file, first);
    if AtRisk(file) && exists c :: Keyless(file, first, c) {
      var c :| Keyless(file, first, c);
      CrashLosesFile(file, first, c);
      EmptyBindsNothing();
      assert Others(Some("")) == map[];
      hide Reaches; hide MidWrite; hide HasKey; hide LoadFile;
      var t :| Reaches(s, t) && t.file == Some("") && !MidWrite(t);
    } else {
      forall t | Reaches(s, t) && !MidWrite(t) ensures Others(t.file) == Others(file) {
        var events :| Exec(s, events) == Some(t);
        SafeRunKeepsOthers(file, first, events);
      }
      hide Reaches; hide Others; hide MidWrite; hide Keyless; hide AtRisk;
    }
  }
}
