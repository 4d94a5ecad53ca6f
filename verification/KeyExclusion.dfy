/** When the lock of the bootstrap excludes callers from each other: exactly when too few of them
    can get as far as the lock at all. */
module KeyExclusion {
  import opened Options
  import opened Text
  import opened EnvFile
  import opened KeyBootstrap

  /** The caller finds no key at its first check of this file. */
  predicate Keyless(file: Option<string>, first: map<Caller, Environ>, c: Caller) {
    c in first && !HasKey(first[c] + FileEnv(file))
  }

  ghost predicate OneKeyless(file: Option<string>, first: map<Caller, Environ>) {
    forall a, b | Keyless(file, first, a) && Keyless(file, first, b) :: a == b
  }

  /** There are no three of them. */
  ghost predicate FewKeyless(file: Option<string>, first: map<Caller, Environ>) {
    forall a, b, c | Keyless(file, first, a) && Keyless(file, first, b) && Keyless(file, first, c) ::
      a == b || b == c || a == c
  }

  /** Two callers are past the lock at once. */
  ghost predicate Shared(s: State) {
    exists c, d :: c in s.pc && d in s.pc && c != d && s.pc[c].HoldsLock() && s.pc[d].HoldsLock()
  }

  // ---- how one step moves ----

  /** Only this caller moves. */
  predicate Moves(s: State, t: State, c: Caller) {
    && c in s.pc && c in t.pc && c in t.env && t.first == s.first
    && t.pc == s.pc[c := t.pc[c]] && t.env == s.env[c := t.env[c]]
  }

  lemma ChecksMove(s: State, c: Caller, i: Inode, l: Loaded)
    requires c in s.pc && c in s.env
    ensures Moves(s, FirstCheck(s, c, l), c) && Moves(s, SecondCheck(s, c, i, l), c) && Moves(s, OpenLock(s, c), c)
  {
    hide HasKey;
  }

  lemma RestMoves(s: State, c: Caller)
    requires c in s.pc && c in s.env
    ensures s.pc[c].Past() ==> Moves(s, Leave(s, c), c)
    ensures s.pc[c].Read? ==> Moves(s, StartWrite(s, c), c)
    ensures c in s.first ==> Moves(s, CrashStep(s, c), c)
  {
    hide Rewrite; hide Contains;
  }

  lemma AdvanceMoves(s: State, c: Caller)
    requires c in s.pc && c in s.env && AdvanceStep(s, c).Some?
    ensures Moves(s, AdvanceStep(s, c).value, c)
  {
    ChecksMove(s, c, 0, LoadFile(s.env[c], s.file));
    if s.pc[c].Locked? { ChecksMove(s, c, s.pc[c].inode, LoadFile(s.env[c], s.file)); }
    RestMoves(s, c);
    hide LoadFile; hide FirstCheck; hide SecondCheck; hide OpenLock; hide Leave; hide StartWrite;
  }

  lemma StepMoves(s: State, e: Event)
    requires Step(s, e).Some?
    ensures Moves(s, Step(s, e).value, e.c)
  {
    hide AdvanceStep; hide CrashStep; hide IsKey;
    match e
    case Advance(c) => AdvanceMoves(s, c);
    case Crash(c) => RestMoves(s, c);
    case Generate(_, _) =>
  }

  /** Where the two checks lead. */
  lemma CheckOutcomes(s: State, c: Caller, i: Inode, l: Loaded)
    requires c in s.pc && c in s.env
    ensures var t := FirstCheck(s, c, l);
      && t.file == s.file && t.lockPath == s.lockPath && c in t.env && t.env[c] == l.env && c in t.pc
      && t.pc[c] == if l.ok && !HasKey(l.env) then Missing else Idle
    ensures var t := SecondCheck(s, c, i, l);
      && t.file == s.file && t.lockPath == s.lockPath && c in t.env && t.env[c] == l.env && c in t.pc
      && (if l.ok && !HasKey(l.env) then t.pc[c] == Absent(i) else t.pc[c].Leaving? && t.pc[c].inode == i)
  {
    hide HasKey;
  }

  // ---- callers that have a key never move ----

  /** Every text at hand assigns the key no blank value, and every key at hand is one. */
  predicate Unblank(pc: Pc) {
    && (pc.Writing() ==> IsKey(pc.key))
    && (pc.Read? ==> NoBlankKey(pc.content))
    && (pc.Truncated? ==> NoBlankKey(Some(pc.text)))
  }

  ghost predicate AllUnblank(s: State) {
    NoBlankKey(s.file) && forall c | c in s.pc :: Unblank(s.pc[c])
  }

  /** Callers that are not keyless are idle, and have a key of their own that no file overlays
      with a blank; unless all callers are keyless. */
  ghost predicate KeyedAreIdle(s: State, file: Option<string>) {
    || (forall c | c in s.pc :: Keyless(file, s.first, c))
    || (AllUnblank(s) && forall c | c in s.pc && !Keyless(file, s.first, c) :: KeyedIdle(s, c))
  }

  predicate KeyedIdle(s: State, c: Caller) {
    && c in s.pc && s.pc[c].Idle?
    && c in s.env && HasKey(s.env[c])
    && c in s.first && HasKey(s.first[c])
  }

  /** A key of one's own is what one loads, unless the file binds another. */
  lemma OwnKeyIsLoaded(env: Environ, file: Option<string>)
    requires HasKey(env) && NoBlankKey(file)
    ensures HasKey(LoadFile(env, file).env)
  {
    LoadMerges(env, file);
    NoBlankLoads(file);
    hide LoadFile; hide NoBlankKey; hide Strip;
  }

  /** A caller that loads a key finishes at its first check, and so does one that is refused. */
  lemma LoadedKeyFinishes(s: State, c: Caller)
    requires c in s.pc && c in s.env && s.pc[c].Idle?
    requires var l := LoadFile(s.env[c], s.file); !l.ok || HasKey(l.env)
    ensures AdvanceStep(s, c).Some?
    ensures var t := AdvanceStep(s, c).value;
      && c in t.pc && t.pc[c].Idle? && c in t.env && t.env[c] == LoadFile(s.env[c], s.file).env
      && t.file == s.file && t.lockPath == s.lockPath
  {
    hide HasKey; hide LoadFile;
  }

  /** Its own step leaves such a caller as it was. */
  lemma KeyedStep(s: State, e: Event)
    requires KeyedIdle(s, e.c) && NoBlankKey(s.file) && Step(s, e).Some?
    ensures var t := Step(s, e).value; KeyedIdle(t, e.c) && t.file == s.file
  {
    StepMoves(s, e);
    if e.Advance? {
      OwnKeyIsLoaded(s.env[e.c], s.file);
      LoadedKeyFinishes(s, e.c);
    }
    hide HasKey; hide LoadFile; hide AdvanceStep; hide NoBlankKey; hide IsKey;
  }

  lemma StartWriteUnblank(s: State, c: Caller)
    requires AllUnblank(s) && c in s.pc && s.pc[c].Read?
    ensures var t := StartWrite(s, c); NoBlankKey(t.file) && c in t.pc && Unblank(t.pc[c])
  {
    assert Unblank(s.pc[c]);
    EmptyLineNotBlank();
    AppendNoBlank(if s.file.Some? then s.file.value else "", s.pc[c].key);
    RewriteNoBlank(s.pc[c].content, s.pc[c].key);
    hide NoBlankKey; hide Rewrite; hide Contains; hide IsKey;
  }

  lemma AdvanceUnblank(s: State, c: Caller)
    requires AllUnblank(s) && c in s.pc && c in s.env && AdvanceStep(s, c).Some?
    ensures var t := AdvanceStep(s, c).value; NoBlankKey(t.file) && c in t.pc && Unblank(t.pc[c])
  {
    assert Unblank(s.pc[c]);
    if s.pc[c].Read? { StartWriteUnblank(s, c); }
    if s.pc[c].Idle? || s.pc[c].Locked? {
      CheckOutcomes(s, c, if s.pc[c].Idle? then 0 else s.pc[c].inode, LoadFile(s.env[c], s.file));
    }
    hide NoBlankKey; hide StartWrite; hide LoadFile; hide HasKey; hide IsKey; hide FirstCheck; hide SecondCheck;
  }

  lemma StepUnblank(s: State, e: Event)
    requires AllUnblank(s) && Step(s, e).Some?
    ensures AllUnblank(Step(s, e).value)
  {
    StepMoves(s, e);
    if e.Advance? { AdvanceUnblank(s, e.c); }
    assert Unblank(s.pc[e.c]);
    hide NoBlankKey; hide AdvanceStep; hide IsKey;
  }

  lemma KeyedFrame(s: State, t: State, c: Caller, file: Option<string>)
    requires Moves(s, t, c) && forall d | d in s.pc && !Keyless(file, s.first, d) :: KeyedIdle(s, d)
    requires !Keyless(file, s.first, c) ==> KeyedIdle(t, c)
    ensures forall d | d in t.pc && !Keyless(file, t.first, d) :: KeyedIdle(t, d)
  {
    hide Keyless; hide HasKey;
  }

  lemma KeyedStayIdle(s: State, e: Event, file: Option<string>)
    requires KeyedAreIdle(s, file) && Step(s, e).Some?
    ensures KeyedAreIdle(Step(s, e).value, file)
  {
    var t := Step(s, e).value;
    StepMoves(s, e);
    hide Step; hide Keyless; hide KeyedIdle;
    if forall c | c in s.pc :: Keyless(file, s.first, c) {
      hide AllUnblank;
      assert forall c | c in t.pc :: Keyless(file, t.first, c);
    } else {
      StepUnblank(s, e);
      assert NoBlankKey(s.file);
      hide AllUnblank; hide NoBlankKey;
      if !Keyless(file, s.first, e.c) { KeyedStep(s, e); }
      KeyedFrame(s, t, e.c, file);
    }
  }

  lemma BusyIsKeyless(s: State, file: Option<string>, c: Caller)
    requires KeyedAreIdle(s, file) && c in s.pc && !s.pc[c].Idle?
    ensures Keyless(file, s.first, c)
  {
    hide Keyless; hide AllUnblank;
  }

  lemma StartKeyedIdle(file: Option<string>, first: map<Caller, Environ>)
    requires !Settled(file)
    ensures KeyedAreIdle(Start(file, first), file)
  {
    BlankIsKeyless(file, first);
    if ENV_KEY !in FileEnv(file) { UnboundNotBlank(file); }
    hide FileEnv; hide HasKey; hide NoBlankKey; hide Settled; hide Keyless;
  }

  lemma UnboundNotBlank(file: Option<string>)
    requires LoadFile(map[], file).ok && ENV_KEY !in FileEnv(file)
    ensures NoBlankKey(file)
  {
    if file.Some? { UnboundLines(Split(file.value)); }
    hide Split; hide KeyNotBlank;
  }

  /** If the file binds the key to a blank, every caller is keyless. */
  lemma BlankIsKeyless(file: Option<string>, first: map<Caller, Environ>)
    requires !Settled(file)
    ensures ENV_KEY in FileEnv(file) ==> forall c | c in first :: Keyless(file, first, c)
    ensures ENV_KEY !in FileEnv(file) ==> forall c | c in first && !Keyless(file, first, c) :: HasKey(first[c])
  {
    hide LoadFile; hide Strip;
  }

  // ---- whose locks are whose ----

  lemma LockShape(s: State, c: Caller)
    requires Shape(s) && c in s.pc && c in s.env && AdvanceStep(s, c).Some?
    requires !s.pc[c].Idle? && !s.pc[c].Locked? && !s.pc[c].Read?
    ensures Shape(AdvanceStep(s, c).value)
  {
    assert Owns(s, c);
    var o := if s.pc[c].Closed? then Some(s.pc[c].outcome) else None;
    ShapeFrame(s, AdvanceStep(s, c).value, c, o);
    hide Shape; hide HasKey; hide LoadFile;
  }

  lemma CheckShape(s: State, c: Caller, i: Inode, l: Loaded)
    requires Shape(s) && c in s.pc
    ensures s.pc[c].Idle? ==> Shape(FirstCheck(s, c, l))
    ensures s.pc[c].Locked? && s.pc[c].inode == i ==> Shape(SecondCheck(s, c, i, l))
  {
    assert Owns(s, c);
    if s.pc[c].Idle? {
      var o := if !l.ok then Some(Refused) else if HasKey(l.env) then Some(Key(l.env[ENV_KEY])) else None;
      ShapeFrame(s, FirstCheck(s, c, l), c, o);
    } else if s.pc[c].Locked? && s.pc[c].inode == i {
      ShapeFrame(s, SecondCheck(s, c, i, l), c, None);
    }
    hide Shape; hide HasKey;
  }

  lemma WriteShape(s: State, c: Caller)
    requires Shape(s) && c in s.pc && s.pc[c].Read?
    ensures Shape(StartWrite(s, c))
  {
    assert Owns(s, c);
    ShapeFrame(s, StartWrite(s, c), c, None);
    hide Shape; hide Contains; hide Rewrite;
  }

  lemma AdvanceShape(s: State, c: Caller)
    requires Shape(s) && c in s.pc && c in s.env && AdvanceStep(s, c).Some?
    ensures Shape(AdvanceStep(s, c).value)
  {
    hide Shape; hide FirstCheck; hide SecondCheck; hide StartWrite; hide LoadFile; hide Leave; hide OpenLock;
    var l := LoadFile(s.env[c], s.file);
    match s.pc[c]
    case Idle => CheckShape(s, c, 0, l);
    case Locked(i) => CheckShape(s, c, i, l);
    case Read(_, _, _) => WriteShape(s, c);
    case _ => LockShape(s, c);
  }

  lemma StepShape(s: State, e: Event)
    requires Shape(s) && Step(s, e).Some?
    ensures Shape(Step(s, e).value)
  {
    assert Owns(s, e.c);
    if e.Advance? {
      AdvanceShape(s, e.c);
    } else {
      ShapeFrame(s, Step(s, e).value, e.c, None);
    }
    hide Shape; hide AdvanceStep; hide IsKey;
  }

  // ---- before the file is settled, and after ----

  /** Every caller with an inode has the one that the path names. */
  predicate OnLockPath(s: State) {
    forall c | c in s.pc && s.pc[c].HasInode() :: s.lockPath == Some(s.pc[c].inode)
  }

  ghost predicate OneBusy(s: State) {
    forall c, d | c in s.pc && d in s.pc && !s.pc[c].Idle? && !s.pc[d].Idle? :: c == d
  }

  /** Every key that is stored in the file settles it. */
  ghost predicate Settling(file: Option<string>) {
    forall k | IsKey(k) :: Settled(Some(Rewrite(file, k)))
  }

  /** What holds of a caller while the file loads and binds no key: nobody has left. */
  predicate Waiting(pc: Pc, hasKey: bool, lockPath: Option<Inode>, file: Option<string>) {
    && !pc.Past()
    && (pc.HasInode() ==> lockPath == Some(pc.inode))
    && (!pc.Idle? ==> !hasKey)
    && (pc.Writing() ==> IsKey(pc.key))
    && (pc.Read? ==> pc.content == file)
    && (pc.Truncated? ==> Settled(Some(pc.text)))
  }

  ghost predicate Open(s: State) {
    && Settling(s.file)
    && forall c | c in s.pc :: c in s.env && Waiting(s.pc[c], HasKey(s.env[c]), s.lockPath, s.file)
  }

  /** Once the file is settled nobody writes it. */
  ghost predicate Over(s: State) {
    && (forall c | c in s.pc :: !s.pc[c].Writing() && !s.pc[c].Absent?)
    && (OnLockPath(s) || OneBusy(s))
  }

  ghost predicate Excluding(s: State) {
    Shape(s) && if Settled(s.file) then Over(s) else Open(s)
  }

  lemma ExcludingIsExclusive(s: State)
    requires Excluding(s)
    ensures !Shared(s)
  {
    hide Settled; hide Settling; hide HasKey; hide IsKey;
    forall c, d | c in s.pc && d in s.pc && c != d && s.pc[c].HoldsLock() ensures !s.pc[d].HoldsLock() {
      assert Owns(s, c);
      assert Owns(s, d);
    }
  }

  /** While the file is open, nobody else is past the lock. */
  lemma OthersWait(s: State, c: Caller)
    requires Shape(s) && Open(s) && c in s.pc && s.pc[c].HoldsLock()
    ensures forall d | d in s.pc && d != c :: !s.pc[d].HoldsLock()
  {
    hide Settled; hide Settling; hide HasKey; hide IsKey;
    assert Owns(s, c);
    forall d | d in s.pc && d != c ensures !s.pc[d].HoldsLock() {
      assert Owns(s, d);
    }
  }

  // ---- steps while the file is open ----

  /** Only the moving caller's own conditions are in question. */
  lemma OpenFrame(s: State, t: State, c: Caller)
    requires Open(s) && Moves(s, t, c) && Settling(t.file)
    requires Waiting(t.pc[c], HasKey(t.env[c]), t.lockPath, t.file)
    requires t.lockPath == s.lockPath || s.lockPath.None?
    requires t.file == s.file || forall d | d in s.pc && d != c :: !s.pc[d].Read?
    ensures Open(t)
  {
    hide Settled; hide Settling; hide HasKey; hide IsKey;
  }

  /** What loading an open file adds to an environment without a key is none. */
  lemma OpenLoads(s: State, c: Caller)
    requires !Settled(s.file) && c in s.env
    ensures var l := LoadFile(s.env[c], s.file); l.ok && (!HasKey(s.env[c]) ==> !HasKey(l.env))
  {
    LoadMerges(s.env[c], s.file);
    OverlayHasKey(s.env[c], FileEnv(s.file));
    hide HasKey; hide LoadFile;
  }

  lemma WaitingChecks(s: State, c: Caller)
    requires !Settled(s.file) && c in s.pc && c in s.env && (s.pc[c].Idle? || s.pc[c].Locked?)
    requires Waiting(s.pc[c], HasKey(s.env[c]), s.lockPath, s.file)
    ensures AdvanceStep(s, c).Some?
    ensures var t := AdvanceStep(s, c).value;
      && c in t.pc && c in t.env && t.file == s.file && t.lockPath == s.lockPath
      && Waiting(t.pc[c], HasKey(t.env[c]), t.lockPath, t.file)
  {
    OpenLoads(s, c);
    CheckOutcomes(s, c, if s.pc[c].Idle? then 0 else s.pc[c].inode, LoadFile(s.env[c], s.file));
    hide HasKey; hide LoadFile; hide IsKey; hide Settled; hide FirstCheck; hide SecondCheck;
  }

  /** Steps that do not write. */
  lemma WaitingAdvance(s: State, c: Caller)
    requires !Settled(s.file) && c in s.pc && c in s.env && AdvanceStep(s, c).Some?
    requires Waiting(s.pc[c], HasKey(s.env[c]), s.lockPath, s.file) && !s.pc[c].Read? && !s.pc[c].Truncated?
    ensures var t := AdvanceStep(s, c).value;
      && c in t.pc && c in t.env && t.file == s.file && (t.lockPath == s.lockPath || s.lockPath.None?)
      && Waiting(t.pc[c], HasKey(t.env[c]), t.lockPath, t.file)
  {
    hide HasKey; hide LoadFile; hide IsKey; hide Settled; hide FirstCheck; hide SecondCheck;
    if s.pc[c].Idle? || s.pc[c].Locked? {
      WaitingChecks(s, c);
    }
  }

  lemma WaitingOnPath(s: State)
    requires Open(s)
    ensures OnLockPath(s) && forall c | c in s.pc && !s.pc[c].HoldsLock() :: !s.pc[c].Writing() && !s.pc[c].Absent?
  {
    hide Settled; hide Settling; hide HasKey; hide IsKey;
  }

  /** The write that settles the file: the others are still before their own check. */
  lemma SettlingWrite(s: State, t: State, c: Caller)
    requires Shape(s) && Open(s) && c in s.pc && s.pc[c].HoldsLock()
    requires Moves(s, t, c) && t.lockPath == s.lockPath && t.pc[c].Stored? && t.pc[c].inode == s.pc[c].inode
    ensures Over(t)
  {
    OthersWait(s, c);
    WaitingOnPath(s);
    hide Shape; hide Open;
    SameInodeOnPath(s, t, c);
  }

  lemma EmptyIsOpen()
    ensures !Settled(Some("")) && Settling(Some(""))
  {
    EmptyFile();
    forall k | IsKey(k) ensures Settled(Some(Rewrite(Some(""), k))) {
      SafeRewriteSettles(Some(""), k);
    }
  }

  /** What a write leaves: a settled file, or an empty one and a text that will settle it. */
  lemma WriteOutcome(s: State, c: Caller)
    requires Open(s) && c in s.pc && c in s.env && (s.pc[c].Read? || s.pc[c].Truncated?)
    requires AdvanceStep(s, c).Some?
    ensures var t := AdvanceStep(s, c).value;
      && c in t.pc && c in t.env && t.lockPath == s.lockPath
      && (|| (t.pc[c].Stored? && t.pc[c].inode == s.pc[c].inode && Settled(t.file))
          || (s.pc[c].Read? && t.file == Some("") && Waiting(t.pc[c], HasKey(t.env[c]), t.lockPath, t.file)))
  {
    assert Waiting(s.pc[c], HasKey(s.env[c]), s.lockPath, s.file);
    assert Settled(Some(Rewrite(s.file, s.pc[c].key)));
    hide Open; hide Settled; hide HasKey; hide IsKey; hide Contains; hide OtherLines; hide Split;
  }

  lemma OpenAdvance(s: State, c: Caller)
    requires Shape(s) && Open(s) && !Settled(s.file) && c in s.pc && c in s.env && AdvanceStep(s, c).Some?
    ensures var t := AdvanceStep(s, c).value;
      if Settled(t.file) then Over(t) else Open(t)
  {
    var t := AdvanceStep(s, c).value;
    AdvanceMoves(s, c);
    if s.pc[c].Read? || s.pc[c].Truncated? {
      WriteOutcome(s, c);
      EmptyIsOpen();
      OthersWait(s, c);
      hide Open; hide Over; hide Shape; hide Settled; hide Settling; hide HasKey; hide AdvanceStep; hide Waiting;
      hide Moves;
      if Settled(t.file) { SettlingWrite(s, t, c); } else { OpenFrame(s, t, c); }
    } else {
      assert Waiting(s.pc[c], HasKey(s.env[c]), s.lockPath, s.file) && Settling(s.file);
      WaitingAdvance(s, c);
      hide Open; hide Over; hide Shape; hide Settled; hide Settling; hide HasKey; hide AdvanceStep; hide Waiting;
      hide Moves;
      OpenFrame(s, t, c);
    }
  }

  lemma OpenStep(s: State, e: Event)
    requires Shape(s) && Open(s) && !Settled(s.file) && Step(s, e).Some?
    ensures var t := Step(s, e).value;
      if Settled(t.file) then Over(t) else Open(t)
  {
    var t, c := Step(s, e).value, e.c;
    if e.Advance? {
      OpenAdvance(s, c);
    } else {
      StepMoves(s, e);
      assert Waiting(s.pc[c], HasKey(s.env[c]), s.lockPath, s.file);
      assert t.file == s.file && t.lockPath == s.lockPath && Settling(s.file);
      assert Waiting(t.pc[c], HasKey(t.env[c]), t.lockPath, t.file);
      hide Open; hide Waiting; hide Settled; hide Settling; hide Step; hide HasKey; hide Moves;
      OpenFrame(s, t, c);
    }
    hide Open; hide Over; hide Settled; hide AdvanceStep;
  }

  // ---- steps once the file is settled ----

  /** Opening takes the inode that the path names, or makes the path name a new one. */
  lemma OpenOnPath(s: State, c: Caller)
    requires c in s.pc && s.pc[c].Missing? && OnLockPath(s)
    ensures OnLockPath(OpenLock(s, c))
  {
  }

  /** A step of a caller that keeps its inode, or gives it up, without touching the path. */
  lemma SameInodeOnPath(s: State, t: State, c: Caller)
    requires OnLockPath(s) && Moves(s, t, c) && t.lockPath == s.lockPath
    requires t.pc[c].HasInode() ==> s.pc[c].HasInode() && t.pc[c].inode == s.pc[c].inode
    ensures OnLockPath(t)
  {
  }

  /** Leaving for good: at most one of the few keyless callers is left. */
  lemma LastLeaves(s: State, t: State, c: Caller, file: Option<string>)
    requires KeyedAreIdle(s, file) && FewKeyless(file, s.first) && Moves(s, t, c) && !s.pc[c].Idle? && t.pc[c].Idle?
    ensures OneBusy(t)
  {
    forall a, b | a in t.pc && b in t.pc && !t.pc[a].Idle? && !t.pc[b].Idle? ensures a == b {
      BusyIsKeyless(s, file, a);
      BusyIsKeyless(s, file, b);
      BusyIsKeyless(s, file, c);
    }
    hide Keyless; hide KeyedAreIdle;
  }

  /** Nobody gets past a check of a settled file but towards the end of its call. */
  lemma SettledAdvance(s: State, c: Caller)
    requires Settled(s.file) && c in s.pc && c in s.env && AdvanceStep(s, c).Some?
    requires !s.pc[c].Writing() && !s.pc[c].Absent?
    ensures var t := AdvanceStep(s, c).value;
      && t.file == s.file && c in t.pc && !t.pc[c].Writing() && !t.pc[c].Absent?
      && (s.pc[c].Idle? || s.pc[c].Closed? ==> t.pc[c].Idle?)
      && (!s.pc[c].Missing? && !s.pc[c].Closed? ==>
            t.lockPath == s.lockPath
            && (t.pc[c].HasInode() ==> s.pc[c].HasInode() && t.pc[c].inode == s.pc[c].inode))
  {
    SettledLoads(s, c);
    if s.pc[c].Idle? || s.pc[c].Locked? {
      CheckOutcomes(s, c, if s.pc[c].Idle? then 0 else s.pc[c].inode, LoadFile(s.env[c], s.file));
    }
    hide HasKey; hide LoadFile; hide FirstCheck; hide SecondCheck; hide Settled;
  }

  lemma SettledLoads(s: State, c: Caller)
    requires Settled(s.file) && c in s.env
    ensures var l := LoadFile(s.env[c], s.file); !l.ok || HasKey(l.env)
  {
    LoadMerges(s.env[c], s.file);
    OverlayHasKey(s.env[c], FileEnv(s.file));
    hide HasKey; hide LoadFile;
  }

  lemma OnPathAdvance(s: State, c: Caller, file: Option<string>)
    requires Settled(s.file) && c in s.pc && c in s.env && AdvanceStep(s, c).Some? && OnLockPath(s)
    requires !s.pc[c].Writing() && !s.pc[c].Absent?
    requires KeyedAreIdle(s, file) && FewKeyless(file, s.first)
    ensures var t := AdvanceStep(s, c).value; OnLockPath(t) || OneBusy(t)
  {
    var t := AdvanceStep(s, c).value;
    AdvanceMoves(s, c);
    SettledAdvance(s, c);
    if s.pc[c].Missing? {
      OpenOnPath(s, c);
    } else {
      hide AdvanceStep; hide Settled; hide KeyedAreIdle; hide FewKeyless; hide OnLockPath; hide OneBusy; hide Moves;
      if s.pc[c].Closed? { LastLeaves(s, t, c, file); } else { SameInodeOnPath(s, t, c); }
    }
    hide KeyedAreIdle; hide FewKeyless; hide OneBusy; hide OnLockPath; hide Settled;
  }

  lemma OverFrame(s: State, t: State, c: Caller)
    requires Over(s) && Moves(s, t, c) && !t.pc[c].Writing() && !t.pc[c].Absent?
    requires OneBusy(s) ==> s.pc[c].Idle? ==> t.pc[c].Idle?
    requires OnLockPath(s) ==> OnLockPath(t) || OneBusy(t)
    ensures Over(t)
  {
  }

  lemma OverStep(s: State, e: Event, file: Option<string>)
    requires Settled(s.file) && Over(s) && Step(s, e).Some? && KeyedAreIdle(s, file) && FewKeyless(file, s.first)
    ensures Step(s, e).value.file == s.file && Over(Step(s, e).value)
  {
    var t, c := Step(s, e).value, e.c;
    StepMoves(s, e);
    assert !s.pc[c].Writing() && !s.pc[c].Absent?;
    if e.Advance? {
      SettledAdvance(s, c);
      if OnLockPath(s) { OnPathAdvance(s, c, file); }
    } else if OnLockPath(s) {
      SameInodeOnPath(s, t, c);
    }
    hide Settled; hide KeyedAreIdle; hide FewKeyless; hide AdvanceStep; hide OnLockPath; hide OneBusy; hide IsKey;
    OverFrame(s, t, c);
  }

  lemma StepExcludes(s: State, e: Event, file: Option<string>)
    requires Excluding(s) && KeyedAreIdle(s, file) && FewKeyless(file, s.first) && Step(s, e).Some?
    ensures Excluding(Step(s, e).value)
  {
    StepShape(s, e);
    hide Shape; hide Settled; hide Over; hide Open; hide KeyedAreIdle; hide FewKeyless; hide Step;
    if Settled(s.file) { OverStep(s, e, file); } else { OpenStep(s, e); }
  }

  lemma {:induction false} RunExcludes(s: State, file: Option<string>, events: seq<Event>)
    requires Excluding(s) && KeyedAreIdle(s, file) && FewKeyless(file, s.first) && Exec(s, events).Some?
    ensures Excluding(Exec(s, events).value)
    decreases |events|
  {
    if events != [] {
      var e := events[0];
      StepExcludes(s, e, file);
      KeyedStayIdle(s, e, file);
      StepMoves(s, e);
      hide Excluding; hide KeyedAreIdle; hide FewKeyless; hide Step;
      RunExcludes(Step(s, e).value, file, events[1..]);
    }
  }

  // ---- at most one keyless caller ----

  lemma {:induction false} RunKeyedIdle(s: State, file: Option<string>, events: seq<Event>)
    requires KeyedAreIdle(s, file) && Exec(s, events).Some?
    ensures KeyedAreIdle(Exec(s, events).value, file) && Exec(s, events).value.first == s.first
    decreases |events|
  {
    if events != [] {
      KeyedStayIdle(s, events[0], file);
      StepMoves(s, events[0]);
      hide KeyedAreIdle; hide Step;
      RunKeyedIdle(Step(s, events[0]).value, file, events[1..]);
    }
  }

  /** A caller that is alone in lacking a key is alone past the lock. */
  lemma OneKeylessExcludes(s: State, file: Option<string>)
    requires KeyedAreIdle(s, file) && OneKeyless(file, s.first)
    ensures !Shared(s)
  {
    hide KeyedAreIdle; hide Keyless;
    if Shared(s) {
      var c, d :| c in s.pc && d in s.pc && c != d && s.pc[c].HoldsLock() && s.pc[d].HoldsLock();
      BusyIsKeyless(s, file, c);
      BusyIsKeyless(s, file, d);
    }
  }

  // ---- three keyless callers share ----

  lemma GoesMissing(s0: State, s: State, c: Caller)
    requires Reaches(s0, s) && c in s.pc && c in s.env && c in s.first && s.pc[c].Idle?
    requires LoadFile(s.env[c], s.file).ok && !HasKey(LoadFile(s.env[c], s.file).env)
    ensures Reaches(s0, s.(env := s.env[c := LoadFile(s.env[c], s.file).env]).Goto(c, Missing))
  {
    hide Reaches; hide HasKey; hide LoadFile;
    ReachStep(s0, s, Advance(c));
  }

  /** Once the first of three has left, the second, who waited for the old lock, and the third,
      who makes a new one, are both past the lock. */
  lemma BothLock(s0: State, s: State, b: Caller, c: Caller)
    requires Reaches(s0, s) && b != c && {b, c} <= s.pc.Keys && s.pc.Keys == s.env.Keys == s.first.Keys
    requires s.pc[b].Opened? && s.pc[b].inode < s.nextInode && s.pc[c].Missing? && s.lockPath.None? && s.owner == map[]
    ensures exists t | Reaches(s0, t) ::
      b in t.pc && c in t.pc && t.pc[b].Locked? && t.pc[c].Locked? && t.pc[b].inode != t.pc[c].inode
  {
    hide Reaches;
    ReachStep(s0, s, Advance(b));
    var s6 := Step(s, Advance(b)).value;
    ReachStep(s0, s6, Advance(c));
    var s7 := Step(s6, Advance(c)).value;
    ReachStep(s0, s7, Advance(c));
    assert Step(s7, Advance(c)).value.pc[c].Locked?;
  }

  /** One of three holds the lock that the path names and is about to generate; the others have
      found no key and look for the lock. */
  predicate Poised(s: State, a: Caller, b: Caller, c: Caller) {
    && a != b && b != c && a != c
    && {a, b, c} <= s.pc.Keys && s.pc.Keys == s.env.Keys == s.first.Keys
    && s.pc[a].Absent? && s.pc[b].Missing? && s.pc[c].Missing?
    && s.lockPath == Some(s.pc[a].inode) && s.owner == map[s.pc[a].inode := a] && s.pc[a].inode < s.nextInode
  }

  /** Two callers have found no key. */
  function TwoMissing(s: State, b: Caller, c: Caller): State
    requires b in s.env && c in s.env
  {
    var lb, lc := LoadFile(s.env[b], s.file), LoadFile(s.env[c], s.file);
    s.(env := s.env[b := lb.env][c := lc.env], pc := s.pc[b := Missing][c := Missing])
  }

  lemma RunsToTwoMissing(s: State, b: Caller, c: Caller)
    requires b != c && {b, c} <= s.pc.Keys && s.pc.Keys == s.env.Keys == s.first.Keys && s.pc[b].Idle? && s.pc[c].Idle?
    requires var l := LoadFile(s.env[b], s.file); l.ok && !HasKey(l.env)
    requires var l := LoadFile(s.env[c], s.file); l.ok && !HasKey(l.env)
    ensures Reaches(s, TwoMissing(s, b, c))
  {
    ReachSelf(s);
    hide Reaches; hide HasKey; hide LoadFile;
    GoesMissing(s, s, b);
    var t := s.(env := s.env[b := LoadFile(s.env[b], s.file).env]).Goto(b, Missing);
    assert t.env[c] == s.env[c];
    GoesMissing(s, t, c);
  }

  lemma FirstHolds(file: Option<string>, first: map<Caller, Environ>, a: Caller, b: Caller, c: Caller)
    requires LoadFile(map[], file).ok && a != b && b != c && a != c
    requires Keyless(file, first, a) && Keyless(file, first, b) && Keyless(file, first, c)
    ensures exists s | Reaches(Start(file, first), s) :: Poised(s, a, b, c)
  {
    var s0 := Start(file, first);
    LoadMerges(first[a], file);
    LoadMerges(first[b], file);
    LoadMerges(first[c], file);
    hide Reaches; hide HasKey; hide LoadFile; hide FileEnv;
    RunsToTwoMissing(s0, b, c);
    var s := TwoMissing(s0, b, c);
    assert Ready(s, a);
    HoldingIsPoised(s, a, b, c);
    RunsToHolding(s0, s, a);
  }

  lemma HoldingIsPoised(s: State, a: Caller, b: Caller, c: Caller)
    requires Ready(s, a) && a != b && b != c && a != c && b in s.pc && c in s.pc
    requires s.pc[b].Missing? && s.pc[c].Missing? && s.pc.Keys == s.env.Keys == s.first.Keys
    ensures Poised(Holding(s, a), a, b, c)
  {
    hide HasKey; hide LoadFile;
  }

  /** The second opens the lock that the first then leaves, unlinking it. */
  lemma PoisedShare(s0: State, s: State, a: Caller, b: Caller, c: Caller)
    requires Reaches(s0, s) && Poised(s, a, b, c)
    ensures exists t | Reaches(s0, t) ::
      b in t.pc && c in t.pc && t.pc[b].Locked? && t.pc[c].Locked? && t.pc[b].inode != t.pc[c].inode
  {
    assert IsKey("A");
    hide Reaches; hide IsKey; hide Rewrite;
    ReachStep(s0, s, Advance(b));
    var s4 := Step(s, Advance(b)).value;
    RunsToWritten(s0, s4, a, "A");
    RunsToLeft(s0, Written(s4, a, "A"), a);
    BothLock(s0, Left(Written(s4, a, "A"), a), b, c);
  }

  /** Whatever the file and the other callers, any three keyless callers can end up with two of
      them holding locks on different inodes at once. */
  lemma TwoInodesLockedAtOnce(file: Option<string>, first: map<Caller, Environ>, a: Caller, b: Caller, c: Caller)
    requires LoadFile(map[], file).ok && a != b && b != c && a != c
    requires Keyless(file, first, a) && Keyless(file, first, b) && Keyless(file, first, c)
    ensures exists t | Reaches(Start(file, first), t) ::
      b in t.pc && c in t.pc && t.pc[b].Locked? && t.pc[c].Locked? && t.pc[b].inode != t.pc[c].inode
  {
    FirstHolds(file, first, a, b, c);
    hide Reaches; hide Poised; hide LoadFile; hide Keyless;
    var s :| Reaches(Start(file, first), s) && Poised(s, a, b, c);
    PoisedShare(Start(file, first), s, a, b, c);
  }

  // ---- two keyless callers share a file that is not settled ----

  /** A crash between calls: the caller starts again from its first environment. */
  lemma CrashIdle(s0: State, s: State, c: Caller)
    requires Reaches(s0, s) && c in s.pc && c in s.env && c in s.first && s.pc[c].Idle?
    ensures Reaches(s0, s.(env := s.env[c := s.first[c]], crashes := s.crashes + 1).Goto(c, Idle))
  {
    hide Reaches;
    ReachStep(s0, s, Crash(c));
  }

  /** The first of two has stored a key that nobody reads and unlinked the lock; the second has
      the old lock file open. */
  predicate LeftBehind(s: State, file: Option<string>, first: map<Caller, Environ>, a: Caller, b: Caller) {
    && a != b && {a, b} <= s.pc.Keys && s.pc.Keys == s.env.Keys == s.first.Keys && s.first == first
    && s.pc[a].Idle? && s.pc[b].Opened? && s.pc[b].inode < s.nextInode && s.lockPath.None? && s.owner == map[]
    && s.file == Some(Rewrite(file, "A"))
  }

  lemma ReachesLeftBehind(file: Option<string>, first: map<Caller, Environ>, a: Caller, b: Caller)
    requires LoadFile(map[], file).ok && a != b && Keyless(file, first, a) && Keyless(file, first, b)
    ensures exists s | Reaches(Start(file, first), s) :: LeftBehind(s, file, first, a, b)
  {
    var s0 := Start(file, first);
    LoadMerges(first[a], file);
    LoadMerges(first[b], file);
    ReachSelf(s0);
    assert IsKey("A");
    hide Reaches; hide HasKey; hide LoadFile; hide FileEnv; hide IsKey; hide Rewrite;
    GoesMissing(s0, s0, b);
    var s1 := s0.(env := first[b := LoadFile(first[b], file).env]).Goto(b, Missing);
    assert Ready(s1, a);
    RunsToHolding(s0, s1, a);
    HoldingLeavesBehind(s0, Holding(s1, a), file, first, a, b);
  }

  lemma HoldingLeavesBehind(s0: State, s: State, file: Option<string>, first: map<Caller, Environ>, a: Caller,
      b: Caller)
    requires Reaches(s0, s) && IsKey("A")
    requires a != b && {a, b} <= s.pc.Keys && s.pc.Keys == s.env.Keys == s.first.Keys && s.first == first
    requires s.pc[a].Absent? && s.pc[b].Missing? && s.file == file && s.lockPath == Some(s.pc[a].inode)
    requires s.owner == map[s.pc[a].inode := a] && s.pc[a].inode < s.nextInode
    ensures exists t | Reaches(s0, t) :: LeftBehind(t, file, first, a, b)
  {
    hide Reaches; hide IsKey; hide Rewrite;
    ReachStep(s0, s, Advance(b));
    var s1 := Step(s, Advance(b)).value;
    RunsToWritten(s0, s1, a, "A");
    RunsToLeft(s0, Written(s1, a, "A"), a);
    assert LeftBehind(Left(Written(s1, a, "A"), a), file, first, a, b);
  }

  /** After a crash the first is keyless again. */
  lemma KeylessAgain(file: Option<string>, first: map<Caller, Environ>, a: Caller)
    requires !Settled(file) && !Settled(Some(Rewrite(file, "A"))) && Keyless(file, first, a)
    ensures var l := LoadFile(first[a], Some(Rewrite(file, "A"))); l.ok && !HasKey(l.env)
  {
    assert IsKey("A");
    LoadMerges(first[a], Some(Rewrite(file, "A")));
    if ENV_KEY in FileEnv(file) { UnsettledKeepsName(file, "A"); }
    hide LoadFile; hide Rewrite; hide IsKey; hide Strip;
  }

  lemma LeftBehindShare(s0: State, s: State, file: Option<string>, first: map<Caller, Environ>, a: Caller, b: Caller)
    requires Reaches(s0, s) && LeftBehind(s, file, first, a, b)
    requires var l := LoadFile(first[a], Some(Rewrite(file, "A"))); l.ok && !HasKey(l.env)
    ensures exists t | Reaches(s0, t) ::
      b in t.pc && a in t.pc && t.pc[b].Locked? && t.pc[a].Locked? && t.pc[b].inode != t.pc[a].inode
  {
    hide Reaches; hide HasKey; hide LoadFile; hide Rewrite;
    CrashIdle(s0, s, a);
    var s1 := s.(env := s.env[a := s.first[a]], crashes := s.crashes + 1).Goto(a, Idle);
    GoesMissing(s0, s1, a);
    BothLock(s0, s1.(env := s1.env[a := LoadFile(first[a], s1.file).env]).Goto(a, Missing), b, a);
  }

  /** From a file that no stored key settles, any two keyless callers can end up holding locks on
      different inodes at once, if the one that comes first crashes and calls again. */
  lemma TwoCallersShare(file: Option<string>, first: map<Caller, Environ>, a: Caller, b: Caller)
    requires !Settled(file) && !Settled(Some(Rewrite(file, "A")))
    requires a != b && Keyless(file, first, a) && Keyless(file, first, b)
    ensures exists t | Reaches(Start(file, first), t) ::
      b in t.pc && a in t.pc && t.pc[b].Locked? && t.pc[a].Locked? && t.pc[b].inode != t.pc[a].inode
  {
    ReachesLeftBehind(file, first, a, b);
    KeylessAgain(file, first, a);
    hide Reaches; hide LeftBehind; hide LoadFile; hide Keyless; hide Rewrite; hide HasKey;
    var s :| Reaches(Start(file, first), s) && LeftBehind(s, file, first, a, b);
    LeftBehindShare(Start(file, first), s, file, first, a, b);
  }

  // ---- a file that is settled from the start ----

  ghost predicate AllIdle(s: State) {
    forall c | c in s.pc :: s.pc[c].Idle?
  }

  lemma SettledStep(s: State, e: Event)
    requires Settled(s.file) && AllIdle(s) && Step(s, e).Some?
    ensures AllIdle(Step(s, e).value) && Step(s, e).value.file == s.file
  {
    StepMoves(s, e);
    if e.Advance? { SettledAdvance(s, e.c); }
    hide Settled; hide AdvanceStep; hide IsKey;
  }

  /** Every call ends at its first check. */
  lemma {:induction false} SettledRun(s: State, events: seq<Event>)
    requires Settled(s.file) && AllIdle(s) && Exec(s, events).Some?
    ensures AllIdle(Exec(s, events).value) && Exec(s, events).value.file == s.file
    decreases |events|
  {
    if events != [] {
      SettledStep(s, events[0]);
      hide AllIdle; hide Settled; hide Step;
      SettledRun(Step(s, events[0]).value, events[1..]);
    }
  }

  // ---- exactly when ----

  /** What a caller can check beforehand: the first check of the file ends every call, or too few
      callers get past it to share. Two are too few if storing a key, whatever key, settles the
      file, and else only one. */
  ghost predicate TooFewToShare(file: Option<string>, first: map<Caller, Environ>) {
    || Settled(file)
    || (if Settled(Some(Rewrite(file, "A"))) then FewKeyless(file, first) else OneKeyless(file, first))
  }

  lemma SettledByEveryKey(file: Option<string>)
    requires !Settled(file) && Settled(Some(Rewrite(file, "A")))
    ensures Settling(file)
  {
    assert IsKey("A");
    forall k | IsKey(k) ensures Settled(Some(Rewrite(file, k))) {
      SettlesForEveryKey(file, "A", k);
    }
  }

  lemma StartExcludes(file: Option<string>, first: map<Caller, Environ>)
    requires !Settled(file) && Settling(file)
    ensures Excluding(Start(file, first))
  {
    hide Settled; hide Settling; hide HasKey; hide IsKey;
  }

  lemma TooFewExclude(file: Option<string>, first: map<Caller, Environ>, t: State)
    requires TooFewToShare(file, first) && Reaches(Start(file, first), t)
    ensures !Shared(t)
  {
    var s := Start(file, first);
    var events :| Exec(s, events) == Some(t);
    hide Settled; hide KeyedAreIdle; hide Excluding; hide FewKeyless; hide OneKeyless; hide Exec; hide Shared;
    if Settled(file) {
      assert AllIdle(s);
      SettledRun(s, events);
      IdleDoNotShare(t);
    } else {
      StartKeyedIdle(file, first);
      if Settled(Some(Rewrite(file, "A"))) {
        SettledByEveryKey(file);
        StartExcludes(file, first);
        RunExcludes(s, file, events);
        ExcludingIsExclusive(t);
      } else {
        RunKeyedIdle(s, file, events);
        OneKeylessExcludes(t, file);
      }
    }
  }

  lemma IdleDoNotShare(t: State)
    requires AllIdle(t)
    ensures !Shared(t)
  {
  }

  /** The exact condition, for every file and all callers: no interleaving, crashes included, ever
      has two callers past the lock, if and only if too few of them get as far. */
  lemma ExclusionExactly(file: Option<string>, first: map<Caller, Environ>)
    ensures (forall t | Reaches(Start(file, first), t) :: !Shared(t)) <==> TooFewToShare(file, first)
  {
    var s := Start(file, first);
    if TooFewToShare(file, first) {
      forall t | Reaches(s, t) ensures !Shared(t) {
        TooFewExclude(file, first, t);
      }
    } else {
      ManyShare(file, first);
    }
  }

  lemma ManyShare(file: Option<string>, first: map<Caller, Environ>)
    requires !TooFewToShare(file, first)
    ensures exists t | Reaches(Start(file, first), t) :: Shared(t)
  {
    if Settled(Some(Rewrite(file, "A"))) {
      var a, b, c :| Keyless(file, first, a) && Keyless(file, first, b) && Keyless(file, first, c)
                     && a != b && b != c && a != c;
      TwoInodesLockedAtOnce(file, first, a, b, c);
    } else {
      var a, b :| Keyless(file, first, a) && Keyless(file, first, b) && a != b;
      TwoCallersShare(file, first, a, b);
    }
    hide Reaches; hide Keyless; hide LoadFile; hide HasKey; hide Rewrite;
  }

  /** A file that is safe to rewrite is settled by storing a key, so three callers are needed. */
  lemma SafeTakesThree(file: Option<string>, first: map<Caller, Environ>)
    requires LoadFile(map[], file).ok && (HasKey(FileEnv(file)) || SafeToRewrite(file))
    ensures TooFewToShare(file, first) <==> FewKeyless(file, first)
  {
    assert IsKey("A");
    if HasKey(FileEnv(file)) {
      forall c ensures !Keyless(file, first, c) {
        if c in first { OverlayHasKey(first[c], FileEnv(file)); }
      }
    } else {
      SafeRewriteSettles(file, "A");
    }
    hide HasKey; hide LoadFile; hide SafeToRewrite; hide Rewrite; hide IsKey;
  }

  lemma KeyInText(text: string, k: string)
    requires ReadsBack(text, k) && IsKey(k)
    ensures HasKey(FileEnv(Some(text)))
  {
    KeyIsVisible(Bindings(text).env, k);
    hide HasKey; hide IsKey;
  }

  lemma EmptyBindsNothing()
    ensures FileEnv(Some("")) == map[]
  {
    EmptyFile();
  }
}
