/** The signing-key bootstrap as any number of concurrent callers run it on one profile.

    Each caller is a process with an environment of its own. The steps are those of one call:
    check, open the lock file, lock its inode, check again, generate, read, write (in one step
    when appending, truncate and then write otherwise), close, unlink. The lock belongs to the
    inode that was open when it was taken, and unlinking removes whatever inode the path names
    by then, so later callers may lock different inodes at the same time. A caller may also
    die between any two steps. */
module KeyBootstrap {
  import opened Options
  import opened Text
  import opened EnvFile

  type Caller = nat
  type Inode = nat

  datatype Pc =
    | Idle
    | Missing
    | Opened(inode: Inode)
    | Locked(inode: Inode)
    | Absent(inode: Inode)
    | Generated(inode: Inode, key: string)
    | Read(inode: Inode, key: string, content: Option<string>)
    | Truncated(inode: Inode, key: string, text: string)
    | Stored(inode: Inode, key: string)
    | Leaving(inode: Inode, outcome: Outcome)
    | Closed(outcome: Outcome)
  {
    predicate HasInode() {
      !Idle? && !Missing? && !Closed?
    }

    predicate HoldsLock() {
      HasInode() && !Opened?
    }

    /** Between generating a key and having written it. */
    predicate Writing() {
      Generated? || Read? || Truncated?
    }

    predicate Past() {
      Stored? || Leaving? || Closed?
    }
  }

  datatype State = State(
    file: Option<string>,
    lockPath: Option<Inode>,
    nextInode: Inode,
    owner: map<Inode, Caller>,
    pc: map<Caller, Pc>,
    env: map<Caller, Environ>,
    first: map<Caller, Environ>,
    generated: seq<string>,
    outcomes: seq<(Caller, Outcome)>,
    crashes: nat)
  {
    function Goto(c: Caller, to: Pc): State {
      this.(pc := pc[c := to])
    }

    function Finish(c: Caller, o: Outcome): State {
      this.(pc := pc[c := Idle], outcomes := outcomes + [(c, o)])
    }
  }

  datatype Event = Advance(c: Caller) | Generate(c: Caller, key: string) | Crash(c: Caller)

  function Start(file: Option<string>, first: map<Caller, Environ>): State {
    State(file, None, 0, map[], map c | c in first :: Idle, first, first, [], [], 0)
  }

  /** The check before any lock is taken, given what loading the file gave. */
  function FirstCheck(s: State, c: Caller, l: Loaded): State {
    var s' := s.(env := s.env[c := l.env]);
    if !l.ok then s'.Finish(c, Refused)
    else if HasKey(l.env) then s'.Finish(c, Key(l.env[ENV_KEY]))
    else s'.Goto(c, Missing)
  }

  /** The check repeated under the lock. */
  function SecondCheck(s: State, c: Caller, i: Inode, l: Loaded): State {
    var s' := s.(env := s.env[c := l.env]);
    if !l.ok then s'.Goto(c, Leaving(i, Refused))
    else if HasKey(l.env) then s'.Goto(c, Leaving(i, Key(l.env[ENV_KEY])))
    else s'.Goto(c, Absent(i))
  }

  /** Opening creates the lock file when the path names none. */
  function OpenLock(s: State, c: Caller): State {
    if s.lockPath.Some? then s.Goto(c, Opened(s.lockPath.value))
    else s.(lockPath := Some(s.nextInode), nextInode := s.nextInode + 1).Goto(c, Opened(s.nextInode))
  }

  /** Appends in one step, or truncates and leaves the text to the next step. */
  function StartWrite(s: State, c: Caller): State
    requires c in s.pc && s.pc[c].Read?
  {
    var Read(i, k, content) := s.pc[c];
    if content.Some? && !Contains(content.value, KEY_PREFIX) then
      var now := if s.file.Some? then s.file.value else "";
      s.(file := Some(now + (KEY_PREFIX + k) + [NEWLINE])).Goto(c, Stored(i, k))
    else s.(file := Some("")).Goto(c, Truncated(i, k, Rewrite(content, k)))
  }

  /** The rest of a call: environment, close, unlink. */
  function Leave(s: State, c: Caller): State
    requires c in s.pc && c in s.env && s.pc[c].Past()
  {
    match s.pc[c]
    case Stored(i, k) => s.(env := s.env[c := s.env[c][ENV_KEY := k]]).Goto(c, Leaving(i, Key(k)))
    case Leaving(i, o) => s.(owner := s.owner - {i}).Goto(c, Closed(o))
    case Closed(o) => s.(lockPath := None).Finish(c, o)
  }

  /** One step of caller `c`, or None when it cannot move: generating needs a key, and locking
      an inode that somebody holds blocks. */
  function AdvanceStep(s: State, c: Caller): Option<State>
    requires c in s.pc && c in s.env
  {
    match s.pc[c]
    case Idle => Some(FirstCheck(s, c, LoadFile(s.env[c], s.file)))
    case Missing => Some(OpenLock(s, c))
    case Opened(i) =>
      if i in s.owner then None else Some(s.(owner := s.owner[i := c]).Goto(c, Locked(i)))
    case Locked(i) => Some(SecondCheck(s, c, i, LoadFile(s.env[c], s.file)))
    case Absent(_) => None
    case Generated(i, k) => Some(s.Goto(c, Read(i, k, s.file)))
    case Read(_, _, _) => Some(StartWrite(s, c))
    case Truncated(i, k, text) => Some(s.(file := Some(text)).Goto(c, Stored(i, k)))
    case Stored(_, _) => Some(Leave(s, c))
    case Leaving(_, _) => Some(Leave(s, c))
    case Closed(_) => Some(Leave(s, c))
  }

  function CrashStep(s: State, c: Caller): State
    requires c in s.pc && c in s.first
  {
    var s' := s.(env := s.env[c := s.first[c]], crashes := s.crashes + 1).Goto(c, Idle);
    if s.pc[c].HoldsLock() then s'.(owner := s'.owner - {s.pc[c].inode}) else s'
  }

  function Step(s: State, e: Event): Option<State> {
    if e.c !in s.pc || e.c !in s.env || e.c !in s.first then None
    else match e
      case Advance(c) => AdvanceStep(s, c)
      case Generate(c, k) =>
        if s.pc[c].Absent? && IsKey(k) then
          Some(s.(generated := s.generated + [k]).Goto(c, Generated(s.pc[c].inode, k)))
        else None
      case Crash(c) => Some(CrashStep(s, c))
  }

  /** A run: the events in order, or None if one of them was not possible. */
  function Exec(s: State, events: seq<Event>): Option<State>
    decreases |events|
  {
    if events == [] then Some(s)
    else
      var next := Step(s, events[0]);
      if next.None? then None else Exec(next.value, events[1..])
  }

  // ---- what is claimed ----

  function FileEnv(file: Option<string>): Environ {
    LoadFile(map[], file).env
  }

  predicate Published(s: State) {
    HasKey(FileEnv(s.file))
  }

  predicate Unpreset(s: State, c: Caller) {
    c in s.first && !HasKey(s.first[c])
  }

  /** Every finished call of a caller that started without a key returned the same key. */
  predicate Agreed(s: State) {
    forall i, j | 0 <= i < |s.outcomes| && 0 <= j < |s.outcomes|
                  && Unpreset(s, s.outcomes[i].0) && Unpreset(s, s.outcomes[j].0) ::
      s.outcomes[i].1.Key? && s.outcomes[i].1 == s.outcomes[j].1
  }

  // ---- the invariant ----

  /** A caller that is past the lock owns the inode it locked. */
  predicate Owns(s: State, c: Caller)
    requires c in s.pc
  {
    s.pc[c].HoldsLock() ==> s.pc[c].inode in s.owner && s.owner[s.pc[c].inode] == c
  }

  ghost predicate Shape(s: State) {
    && s.pc.Keys == s.env.Keys == s.first.Keys
    && (forall c | c in s.pc :: Owns(s, c))
    && (forall i | 0 <= i < |s.outcomes| :: s.outcomes[i].0 in s.first)
  }

  /** What holds of a caller before the key is in the file: nobody has left, so the path still
      names the one inode that everybody opened. */
  predicate Early(pc: Pc, hasKey: bool, preset: bool, lockPath: Option<Inode>, file: Option<string>) {
    && !pc.Past()
    && (pc.HasInode() ==> lockPath == Some(pc.inode))
    && (!preset || !pc.Idle? ==> !hasKey)
    && (pc.Writing() ==> IsKey(pc.key))
    && (pc.Read? ==> pc.content == file)
    && (pc.Truncated? ==> ReadsBack(pc.text, pc.key))
  }

  ghost predicate Before(s: State)
    requires Shape(s)
  {
    && (forall c | c in s.pc :: Early(s.pc[c], HasKey(s.env[c]), HasKey(s.first[c]), s.lockPath, s.file))
    && (forall i | 0 <= i < |s.outcomes| :: HasKey(s.first[s.outcomes[i].0]))
  }

  /** What holds of a caller once the file binds the key to `k`: it writes nothing, whatever
      inode it locks, and what it is about to return is `k`. */
  predicate Late(pc: Pc, env: Environ, preset: bool, k: string) {
    && !pc.Writing() && !pc.Absent?
    && (!preset && HasKey(env) ==> env[ENV_KEY] == k)
    && (pc.Stored? ==> pc.key == k)
    && (pc.Leaving? || pc.Closed? ==> pc.outcome == Key(k))
  }

  ghost predicate After(s: State, k: string)
    requires Shape(s)
  {
    && (forall c | c in s.pc :: Late(s.pc[c], s.env[c], HasKey(s.first[c]), k))
    && (forall i | 0 <= i < |s.outcomes| :: HasKey(s.first[s.outcomes[i].0]) || s.outcomes[i].1 == Key(k))
  }

  /** How many keys can have been generated: one more than died trying, if one is at large. */
  ghost predicate Few(s: State, published: bool) {
    |s.generated| <= s.crashes + (if published || exists c | c in s.pc :: s.pc[c].Writing() then 1 else 0)
  }

  /** The invariant of a state whose file binds `b`. */
  ghost predicate InvWith(s: State, b: Environ) {
    && Shape(s)
    && (if HasKey(b) then After(s, b[ENV_KEY]) else Before(s))
  }

  ghost predicate Inv(s: State) {
    && LoadFile(map[], s.file).ok
    && (Published(s) || SafeToRewrite(s.file))
    && InvWith(s, FileEnv(s.file))
    && Few(s, Published(s))
  }

  // ---- each step keeps it ----

  /** Before publication at most one caller is past the lock. */
  lemma Alone(s: State, c: Caller)
    requires Shape(s) && Before(s) && c in s.pc && s.pc[c].HoldsLock()
    ensures forall d | d in s.pc && d != c :: !s.pc[d].HoldsLock()
  {
    hide HasKey; hide ReadsBack; hide IsKey;
    forall d | d in s.pc && d != c ensures !s.pc[d].HoldsLock() {
      assert Owns(s, c) && Owns(s, d);
    }
  }

  /** Which side of publication a caller's program point belongs to. */
  lemma SideOf(s: State, c: Caller, b: Environ)
    requires InvWith(s, b) && c in s.pc
    ensures s.pc[c].Writing() || s.pc[c].Absent? ==> !HasKey(b)
    ensures s.pc[c].Past() ==> HasKey(b)
    ensures !HasKey(b) ==> Early(s.pc[c], HasKey(s.env[c]), HasKey(s.first[c]), s.lockPath, s.file)
    ensures HasKey(b) ==> Late(s.pc[c], s.env[c], HasKey(s.first[c]), b[ENV_KEY])
    ensures Shape(s) && Owns(s, c)
  {
  }

  lemma OverlayHasKey(env: Environ, b: Environ)
    ensures HasKey(b) ==> HasKey(env + b) && (env + b)[ENV_KEY] == b[ENV_KEY]
    ensures !HasKey(b) && !HasKey(env) ==> !HasKey(env + b)
  {
  }

  /** Nothing changed but caller `c`, the lock, and perhaps one more outcome of its own. */
  predicate OnlyMoves(s: State, s': State, c: Caller, last: Option<Outcome>)
    requires c in s.pc
  {
    && c in s'.pc && s'.pc == s.pc[c := s'.pc[c]]
    && c in s'.env && s'.env == s.env[c := s'.env[c]]
    && s'.first == s.first
    && (forall i | i in s.owner && s.owner[i] != c :: i in s'.owner && s'.owner[i] == s.owner[i])
    && s'.outcomes == if last.None? then s.outcomes else s.outcomes + [(c, last.value)]
  }

  lemma ShapeFrame(s: State, s': State, c: Caller, last: Option<Outcome>)
    requires Shape(s) && c in s.pc && OnlyMoves(s, s', c, last) && Owns(s', c)
    ensures Shape(s')
  {
    assert forall d | d in s.pc :: Owns(s, d);
  }

  /** The others are untouched, so only the moving caller's own conditions are in question. */
  lemma FrameBefore(s: State, s': State, c: Caller, last: Option<Outcome>)
    requires Shape(s) && Before(s) && c in s.pc && OnlyMoves(s, s', c, last) && Owns(s', c)
    requires Early(s'.pc[c], HasKey(s'.env[c]), HasKey(s.first[c]), s'.lockPath, s'.file)
    requires s'.lockPath == s.lockPath || s.lockPath.None?
    requires s'.file == s.file || forall d | d in s.pc && d != c :: !s.pc[d].Read?
    requires last.Some? ==> HasKey(s.first[c])
    ensures Shape(s') && Before(s')
  {
    ShapeFrame(s, s', c, last);
    hide HasKey; hide ReadsBack; hide IsKey; hide Owns;
  }

  lemma FrameAfter(s: State, s': State, c: Caller, last: Option<Outcome>, k: string)
    requires Shape(s) && After(s, k) && c in s.pc && OnlyMoves(s, s', c, last) && Owns(s', c)
    requires Late(s'.pc[c], s'.env[c], HasKey(s.first[c]), k)
    requires last.Some? ==> HasKey(s.first[c]) || last.value == Key(k)
    ensures Shape(s') && After(s', k)
  {
    ShapeFrame(s, s', c, last);
    hide HasKey; hide Owns;
  }

  lemma FewFrame(s: State, s': State, c: Caller, published: bool)
    requires Few(s, published) && s'.generated == s.generated && s'.crashes == s.crashes
    requires c in s.pc && s'.pc.Keys == s.pc.Keys && forall d | d in s.pc && d != c :: s'.pc[d] == s.pc[d]
    requires s.pc[c].Writing() ==> s'.pc[c].Writing()
    ensures Few(s', published)
  {
    if !published && exists d | d in s.pc :: s.pc[d].Writing() {
      var d :| d in s.pc && s.pc[d].Writing();
      assert s'.pc[d].Writing();
    }
  }

  lemma FirstCheckBefore(s: State, s': State, c: Caller, env: Environ)
    requires Shape(s) && Before(s) && c in s.pc && s.pc[c].Idle? && (HasKey(env) ==> HasKey(s.first[c]))
    requires s' == FirstCheck(s, c, Loaded(env, true))
    ensures Shape(s') && Before(s')
  {
    hide ReadsBack; hide IsKey; hide Before; hide Strip;
    FrameBefore(s, s', c, if HasKey(env) then Some(Key(env[ENV_KEY])) else None);
  }

  lemma FirstCheckKeeps(s: State, c: Caller, b: Environ)
    requires InvWith(s, b) && c in s.pc && s.pc[c].Idle?
    ensures InvWith(FirstCheck(s, c, Loaded(s.env[c] + b, true)), b)
  {
    var env := s.env[c] + b;
    var s' := FirstCheck(s, c, Loaded(env, true));
    OverlayHasKey(s.env[c], b);
    SideOf(s, c, b);
    hide HasKey; hide ReadsBack; hide IsKey; hide Shape; hide Before; hide After;
    if HasKey(b) {
      FrameAfter(s, s', c, Some(Key(env[ENV_KEY])), b[ENV_KEY]);
    } else {
      FirstCheckBefore(s, s', c, env);
    }
  }

  lemma SecondCheckKeeps(s: State, c: Caller, b: Environ)
    requires InvWith(s, b) && c in s.pc && s.pc[c].Locked?
    ensures InvWith(SecondCheck(s, c, s.pc[c].inode, Loaded(s.env[c] + b, true)), b)
  {
    var s' := SecondCheck(s, c, s.pc[c].inode, Loaded(s.env[c] + b, true));
    OverlayHasKey(s.env[c], b);
    SideOf(s, c, b);
    hide HasKey; hide ReadsBack; hide IsKey; hide Shape; hide Before; hide After;
    if HasKey(b) { FrameAfter(s, s', c, None, b[ENV_KEY]); } else { FrameBefore(s, s', c, None); }
  }

  lemma OpenKeeps(s: State, c: Caller, b: Environ)
    requires InvWith(s, b) && c in s.pc && s.pc[c].Missing?
    ensures InvWith(OpenLock(s, c), b)
  {
    var s' := OpenLock(s, c);
    SideOf(s, c, b);
    hide HasKey; hide ReadsBack; hide IsKey; hide Shape; hide Before; hide After;
    if HasKey(b) { FrameAfter(s, s', c, None, b[ENV_KEY]); } else { FrameBefore(s, s', c, None); }
  }

  /** Taking the lock, and reading the text to rewrite under it. */
  lemma TakeOrReadKeeps(s: State, c: Caller, b: Environ)
    requires InvWith(s, b) && c in s.pc && AdvanceStep(s, c).Some? && (s.pc[c].Opened? || s.pc[c].Generated?)
    ensures InvWith(AdvanceStep(s, c).value, b)
  {
    var s' := AdvanceStep(s, c).value;
    SideOf(s, c, b);
    hide HasKey; hide ReadsBack; hide IsKey; hide Shape; hide Before; hide After;
    if HasKey(b) { FrameAfter(s, s', c, None, b[ENV_KEY]); } else { FrameBefore(s, s', c, None); }
  }

  lemma LeaveKeeps(s: State, c: Caller, b: Environ)
    requires InvWith(s, b) && c in s.pc && s.pc[c].Past()
    ensures InvWith(Leave(s, c), b)
  {
    SideOf(s, c, b);
    hide HasKey; hide Shape; hide Before; hide After;
    FrameAfter(s, Leave(s, c), c, if s.pc[c].Closed? then Some(s.pc[c].outcome) else None, b[ENV_KEY]);
  }

  lemma CrashStepKeeps(s: State, c: Caller, b: Environ)
    requires InvWith(s, b) && c in s.pc
    ensures InvWith(CrashStep(s, c), b)
  {
    var s' := CrashStep(s, c);
    SideOf(s, c, b);
    CrashMovesOnly(s, c);
    hide HasKey; hide ReadsBack; hide IsKey; hide Shape; hide Before; hide After; hide CrashStep; hide OnlyMoves;
    if HasKey(b) { FrameAfter(s, s', c, None, b[ENV_KEY]); } else { FrameBefore(s, s', c, None); }
  }

  /** What a crash does. */
  lemma CrashMovesOnly(s: State, c: Caller)
    requires Shape(s) && c in s.pc
    ensures var t := CrashStep(s, c);
      && OnlyMoves(s, t, c, None) && Owns(t, c) && t.pc[c].Idle?
      && c in t.env && c in s.first && t.env[c] == s.first[c] && t.lockPath == s.lockPath && t.file == s.file
  {
    assert Owns(s, c) && c in s.first && c in s.env;
  }

  lemma CrashKeeps(s: State, c: Caller)
    requires Inv(s) && c in s.pc
    ensures Inv(CrashStep(s, c))
  {
    var s' := CrashStep(s, c);
    CrashStepKeeps(s, c, FileEnv(s.file));
    hide HasKey; hide LoadFile; hide SafeToRewrite; hide InvWith;
    assert Few(s', HasKey(FileEnv(s.file)));
  }

  lemma GenerateKeeps(s: State, c: Caller, k: string)
    requires Inv(s) && c in s.pc && s.pc[c].Absent? && IsKey(k)
    ensures Inv(Step(s, Generate(c, k)).value)
  {
    SideOf(s, c, FileEnv(s.file));
    Alone(s, c);
    hide HasKey; hide ReadsBack; hide IsKey; hide LoadFile; hide SafeToRewrite; hide Shape; hide Before;
    var s' := Step(s, Generate(c, k)).value;
    FrameBefore(s, s', c, None);
    assert s'.pc[c].Writing();
  }

  /** The steps that neither write the file nor generate a key. Both checks load the file, and
      what the loaded environment says of the key is what the file binds, or, while the file
      binds nothing, what the caller was started with. */
  lemma ReadOnlyKeeps(s: State, c: Caller, b: Environ)
    requires InvWith(s, b) && c in s.pc && !s.pc[c].Read? && !s.pc[c].Truncated? && AdvanceStep(s, c).Some?
    requires LoadFile(s.env[c], s.file) == Loaded(s.env[c] + b, true)
    ensures InvWith(AdvanceStep(s, c).value, b)
  {
    hide InvWith; hide HasKey; hide LoadFile;
    match s.pc[c]
    case Idle => FirstCheckKeeps(s, c, b);
    case Missing => OpenKeeps(s, c, b);
    case Opened(_) => TakeOrReadKeeps(s, c, b);
    case Locked(_) => SecondCheckKeeps(s, c, b);
    case Generated(_, _) => TakeOrReadKeeps(s, c, b);
    case _ => LeaveKeeps(s, c, b);
  }

  /** `c` moves without touching the file, the keys or the crash count. */
  predicate MovesOnly(s: State, s': State, c: Caller)
    requires c in s.pc
  {
    && s'.file == s.file && s'.generated == s.generated && s'.crashes == s.crashes
    && c in s'.pc && s'.pc == s.pc[c := s'.pc[c]] && (s.pc[c].Writing() ==> s'.pc[c].Writing())
  }

  lemma ChecksMoveOnly(s: State, c: Caller, i: Inode, l: Loaded)
    requires c in s.pc && !s.pc[c].Writing()
    ensures MovesOnly(s, FirstCheck(s, c, l), c) && MovesOnly(s, SecondCheck(s, c, i, l), c)
    ensures MovesOnly(s, OpenLock(s, c), c)
  {
    hide HasKey;
  }

  lemma LeaveMovesOnly(s: State, c: Caller)
    requires c in s.pc && c in s.env && s.pc[c].Past()
    ensures MovesOnly(s, Leave(s, c), c)
  {
  }

  lemma ReadOnlyFrame(s: State, c: Caller)
    requires c in s.pc && c in s.env && !s.pc[c].Read? && !s.pc[c].Truncated? && AdvanceStep(s, c).Some?
    ensures var s' := AdvanceStep(s, c).value;
      MovesOnly(s, s', c)
  {
    hide HasKey; hide LoadFile; hide FirstCheck; hide SecondCheck; hide OpenLock; hide Leave;
    match s.pc[c]
    case Idle => ChecksMoveOnly(s, c, 0, LoadFile(s.env[c], s.file));
    case Missing => ChecksMoveOnly(s, c, 0, LoadFile(s.env[c], s.file));
    case Locked(i) => ChecksMoveOnly(s, c, i, LoadFile(s.env[c], s.file));
    case Stored(_, _) => LeaveMovesOnly(s, c);
    case Leaving(_, _) => LeaveMovesOnly(s, c);
    case Closed(_) => LeaveMovesOnly(s, c);
    case _ =>
  }

  /** Steps that leave the file alone need only keep what its bindings determine. */
  lemma SameFileInv(s: State, s': State)
    requires Inv(s) && s'.file == s.file
    requires InvWith(s', FileEnv(s.file)) && Few(s', HasKey(FileEnv(s.file)))
    ensures Inv(s')
  {
    hide InvWith; hide HasKey; hide LoadFile; hide SafeToRewrite;
  }

  lemma ReadOnlyInv(s: State, c: Caller)
    requires Inv(s) && c in s.pc && c in s.env && !s.pc[c].Read? && !s.pc[c].Truncated? && AdvanceStep(s, c).Some?
    ensures Inv(AdvanceStep(s, c).value)
  {
    hide AdvanceStep; hide HasKey; hide LoadFile;
    var b, s' := FileEnv(s.file), AdvanceStep(s, c).value;
    ReadOnlyFrame(s, c);
    LoadMerges(s.env[c], s.file);
    ReadOnlyKeeps(s, c, b);
    FewFrame(s, s', c, HasKey(b));
    SameFileInv(s, s');
  }

  // ---- writing the file ----

  lemma KeyIsVisible(env: Environ, k: string)
    requires IsKey(k) && ENV_KEY in env && env[ENV_KEY] == k
    ensures HasKey(env)
  {
    KeyIsPlain(k);
  }

  lemma EmptyFile()
    ensures LoadFile(map[], Some("")) == Loaded(map[], true) && SafeToRewrite(Some(""))
    ensures !HasKey(map[])
  {
  }

  /** Truncating the file: the writer is alone, and what it will write reads back. */
  lemma TruncateKeeps(s: State, s': State, c: Caller, text: string)
    requires Shape(s) && Before(s) && c in s.pc && s.pc[c].Read? && ReadsBack(text, s.pc[c].key)
    requires s' == s.(file := Some("")).Goto(c, Truncated(s.pc[c].inode, s.pc[c].key, text))
    ensures Shape(s') && Before(s')
  {
    Alone(s, c);
    var pc := s.pc[c];
    assert Early(pc, HasKey(s.env[c]), HasKey(s.first[c]), s.lockPath, s.file) && Owns(s, c);
    assert forall d | d in s.pc && d != c :: !s.pc[d].Read?;
    TruncateMovesOnly(s, s', c, text);
    hide *;
    FrameBefore(s, s', c, None);
  }

  lemma TruncateMovesOnly(s: State, s': State, c: Caller, text: string)
    requires c in s.pc && s.pc[c].Read? && ReadsBack(text, s.pc[c].key)
    requires c in s.env && c in s.first && Owns(s, c)
    requires Early(s.pc[c], HasKey(s.env[c]), HasKey(s.first[c]), s.lockPath, s.file)
    requires s' == s.(file := Some("")).Goto(c, Truncated(s.pc[c].inode, s.pc[c].key, text))
    ensures OnlyMoves(s, s', c, None) && Owns(s', c) && s'.lockPath == s.lockPath
    ensures Early(s'.pc[c], HasKey(s'.env[c]), HasKey(s.first[c]), s'.lockPath, s'.file)
  {
    hide HasKey; hide ReadsBack; hide IsKey;
  }

  lemma TruncateInv(s: State, s': State, c: Caller, text: string)
    requires Inv(s) && c in s.pc && s.pc[c].Read? && ReadsBack(text, s.pc[c].key)
    requires s' == s.(file := Some("")).Goto(c, Truncated(s.pc[c].inode, s.pc[c].key, text))
    ensures Inv(s')
  {
    SideOf(s, c, FileEnv(s.file));
    TruncateKeeps(s, s', c, text);
    EmptyFile();
    FewFrame(s, s', c, false);
    hide HasKey; hide ReadsBack; hide LoadFile; hide SafeToRewrite; hide Before; hide After; hide Shape;
  }

  /** Publication: the writer is alone, so everybody else is still before its own check. */
  lemma PublishKeeps(s: State, s': State, c: Caller, b: Environ)
    requires InvWith(s, FileEnv(s.file)) && c in s.pc && s.pc[c].Writing()
    requires HasKey(b) && b[ENV_KEY] == s.pc[c].key
    requires s'.file.Some? && s' == s.(file := s'.file).Goto(c, Stored(s.pc[c].inode, s.pc[c].key))
    ensures InvWith(s', b)
  {
    SideOf(s, c, FileEnv(s.file));
    Alone(s, c);
    hide HasKey; hide IsKey; hide ReadsBack; hide LoadFile; hide Owns;
    ShapeFrame(s, s', c, None);
    var k := s.pc[c].key;
    forall d | d in s.pc ensures Late(s'.pc[d], s'.env[d], HasKey(s'.first[d]), k) {
      assert Early(s.pc[d], HasKey(s.env[d]), HasKey(s.first[d]), s.lockPath, s.file);
      hide Shape; hide Before;
      if d != c { EarlyIsLate(s.pc[d], s.env[d], HasKey(s.first[d]), s.lockPath, s.file, k); }
    }
  }

  /** A caller that does not hold the lock has nothing of its own to return yet. */
  lemma EarlyIsLate(pc: Pc, env: Environ, preset: bool, lockPath: Option<Inode>, file: Option<string>, k: string)
    requires Early(pc, HasKey(env), preset, lockPath, file) && !pc.HoldsLock()
    ensures Late(pc, env, preset, k)
  {
    hide HasKey; hide IsKey; hide ReadsBack;
  }

  lemma PublishInv(s: State, s': State, c: Caller, text: string)
    requires Inv(s) && c in s.pc && s.pc[c].Writing() && IsKey(s.pc[c].key) && ReadsBack(text, s.pc[c].key)
    requires s' == s.(file := Some(text)).Goto(c, Stored(s.pc[c].inode, s.pc[c].key))
    ensures Inv(s')
  {
    var b := Bindings(text).env;
    KeyIsVisible(b, s.pc[c].key);
    PublishKeeps(s, s', c, b);
    assert LoadFile(map[], s'.file) == Bindings(text);
    hide HasKey; hide IsKey; hide LoadFile; hide InvWith; hide SafeToRewrite; hide LoadLines; hide Split;
  }

  lemma WriteKeeps(s: State, c: Caller)
    requires Inv(s) && c in s.pc && c in s.env && (s.pc[c].Read? || s.pc[c].Truncated?)
    requires AdvanceStep(s, c).Some?
    ensures Inv(AdvanceStep(s, c).value)
  {
    SideOf(s, c, FileEnv(s.file));
    var s' := AdvanceStep(s, c).value;
    if s.pc[c].Truncated? {
      PublishInv(s, s', c, s.pc[c].text);
    } else {
      var text := Rewrite(s.file, s.pc[c].key);
      RewriteReadsBack(s.file, s.pc[c].key);
      hide Inv; hide HasKey; hide IsKey; hide LoadFile; hide SafeToRewrite;
      if s'.pc[c].Truncated? { TruncateInv(s, s', c, text); } else { PublishInv(s, s', c, text); }
    }
  }

  /** Every step of every caller keeps the invariant. */
  lemma StepKeeps(s: State, e: Event)
    requires Inv(s) && Step(s, e).Some?
    ensures Inv(Step(s, e).value)
  {
    hide Inv;
    match e
    case Generate(c, k) => GenerateKeeps(s, c, k);
    case Crash(c) => CrashKeeps(s, c);
    case Advance(c) =>
      if s.pc[c].Read? || s.pc[c].Truncated? { WriteKeeps(s, c); } else { ReadOnlyInv(s, c); }
  }

  // ---- over whole runs ----

  lemma {:induction false} RunKeeps(s: State, events: seq<Event>)
    requires Inv(s) && Exec(s, events).Some?
    ensures Inv(Exec(s, events).value)
    ensures (forall e | e in events :: !e.Crash?) ==> Exec(s, events).value.crashes == s.crashes
    decreases |events|
  {
    if events != [] {
      StepKeeps(s, events[0]);
      RunKeeps(Step(s, events[0]).value, events[1..]);
      if forall e | e in events :: !e.Crash? {
        assert forall e | e in events[1..] :: e in events;
        CrashesOnlyByCrash(s, events[0]);
      }
    }
  }

  lemma CrashesOnlyByCrash(s: State, e: Event)
    requires Step(s, e).Some? && !e.Crash?
    ensures Step(s, e).value.crashes == s.crashes
  {
    hide HasKey; hide LoadFile; hide IsKey;
  }

  lemma AgreedOf(s: State)
    requires Inv(s)
    ensures Agreed(s) && |s.generated| <= s.crashes + 1
  {
    hide LoadFile; hide SafeToRewrite; hide ReadsBack; hide IsKey; hide Strip;
  }

  /** Agreement: from a file that binds the key or is safe to rewrite, in every interleaving of
      any number of callers, crashes included, all callers that started without a key return
      one and the same key; and without crashes at most one key is ever generated. */
  lemma KeyAgreement(file: Option<string>, first: map<Caller, Environ>, events: seq<Event>)
    requires LoadFile(map[], file).ok && (HasKey(FileEnv(file)) || SafeToRewrite(file))
    requires Exec(Start(file, first), events).Some?
    ensures var s := Exec(Start(file, first), events).value;
      && Agreed(s)
      && |s.generated| <= s.crashes + 1
      && ((forall e | e in events :: !e.Crash?) ==> |s.generated| <= 1)
  {
    StartInv(file, first);
    RunKeeps(Start(file, first), events);
    AgreedOf(Exec(Start(file, first), events).value);
  }

  lemma StartInv(file: Option<string>, first: map<Caller, Environ>)
    requires LoadFile(map[], file).ok && (HasKey(FileEnv(file)) || SafeToRewrite(file))
    ensures Inv(Start(file, first))
  {
    hide HasKey; hide LoadFile; hide SafeToRewrite; hide ReadsBack; hide IsKey;
  }

  /** Once the file binds a key, no run changes the file or generates another key. */
  lemma {:induction false} PublishedIsFinal(s: State, events: seq<Event>)
    requires Inv(s) && Published(s) && Exec(s, events).Some?
    ensures Exec(s, events).value.file == s.file && Exec(s, events).value.generated == s.generated
    decreases |events|
  {
    if events != [] {
      var e := events[0];
      var s' := Step(s, e).value;
      StepKeeps(s, e);
      SideOf(s, e.c, FileEnv(s.file));
      assert s'.file == s.file && s'.generated == s.generated by {
        if e.Advance? { ReadOnlyFrame(s, e.c); }
      }
      PublishedIsFinal(s', events[1..]);
    }
  }

  /** When exclusion holds: two callers can be past the lock at once only on different inodes,
      only once the file binds a key, and then neither of them generates or writes. */
  lemma SharedOnlyAfterPublication(s: State, c: Caller, d: Caller)
    requires Inv(s) && c in s.pc && d in s.pc && c != d && s.pc[c].HoldsLock() && s.pc[d].HoldsLock()
    ensures s.pc[c].inode != s.pc[d].inode
    ensures Published(s)
    ensures !s.pc[c].Writing() && !s.pc[c].Absent? && !s.pc[d].Writing() && !s.pc[d].Absent?
  {
    SideOf(s, c, FileEnv(s.file));
    SideOf(s, d, FileEnv(s.file));
    if !Published(s) {
      Alone(s, c);
    }
    hide HasKey; hide LoadFile; hide Early; hide Late;
  }

  /** So in every run from a file that binds the key or is safe to rewrite. */
  lemma ExclusionOverRuns(file: Option<string>, first: map<Caller, Environ>, events: seq<Event>, c: Caller, d: Caller)
    requires LoadFile(map[], file).ok && (HasKey(FileEnv(file)) || SafeToRewrite(file))
    requires Exec(Start(file, first), events).Some? && c != d
    ensures var s := Exec(Start(file, first), events).value;
      c in s.pc && d in s.pc && s.pc[c].HoldsLock() && s.pc[d].HoldsLock() ==>
        && s.pc[c].inode != s.pc[d].inode && Published(s)
        && !s.pc[c].Writing() && !s.pc[c].Absent?
  {
    StartInv(file, first);
    RunKeeps(Start(file, first), events);
    var s := Exec(Start(file, first), events).value;
    hide Exec; hide Inv; hide Published; hide LoadFile;
    if c in s.pc && d in s.pc && s.pc[c].HoldsLock() && s.pc[d].HoldsLock() {
      SharedOnlyAfterPublication(s, c, d);
    }
  }

  // ---- reachable states ----

  ghost predicate Reaches(s: State, t: State) {
    exists events :: Exec(s, events) == Some(t)
  }

  lemma {:induction false} ExecConcat(s: State, es: seq<Event>, fs: seq<Event>)
    requires Exec(s, es).Some?
    ensures Exec(s, es + fs) == Exec(Exec(s, es).value, fs)
    decreases |es|
  {
    if es == [] {
      assert es + fs == fs;
    } else {
      assert (es + fs)[1..] == es[1..] + fs;
      ExecConcat(Step(s, es[0]).value, es[1..], fs);
    }
  }

  lemma ReachSelf(s: State)
    ensures Reaches(s, s)
  {
    assert Exec(s, []) == Some(s);
  }

  lemma ReachStep(s: State, t: State, e: Event)
    requires Reaches(s, t) && Step(t, e).Some?
    ensures Reaches(s, Step(t, e).value)
  {
    hide Step;
    var es :| Exec(s, es) == Some(t);
    ExecConcat(s, es, [e]);
    assert Exec(s, es + [e]) == Exec(t, [e]);
    assert [e][1..] == [];
  }

  // ---- one caller running alone ----

  /** Nobody holds or names a lock file, and the caller is about to find no key. */
  predicate Ready(s: State, c: Caller) {
    && c in s.pc && c in s.env && c in s.first && s.pc[c].Idle?
    && s.lockPath.None? && s.owner == map[]
    && LoadFile(s.env[c], s.file).ok && !HasKey(LoadFile(s.env[c], s.file).env)
  }

  /** The state of a caller that has checked twice and holds the lock on a new inode. */
  function Holding(s: State, c: Caller): State
    requires Ready(s, c)
  {
    s.(env := s.env[c := LoadFile(s.env[c], s.file).env], lockPath := Some(s.nextInode),
       nextInode := s.nextInode + 1, owner := map[s.nextInode := c], pc := s.pc[c := Absent(s.nextInode)])
  }

  lemma RunsToHolding(s0: State, s: State, c: Caller)
    requires Reaches(s0, s) && Ready(s, c)
    ensures Reaches(s0, Holding(s, c))
  {
    LoadTwice(s.env[c], s.file);
    hide HasKey; hide LoadFile; hide Reaches;
    var e := Advance(c);
    ReachStep(s0, s, e);
    var s1 := Step(s, e).value;
    ReachStep(s0, s1, e);
    var s2 := Step(s1, e).value;
    ReachStep(s0, s2, e);
    var s3 := Step(s2, e).value;
    ReachStep(s0, s3, e);
    assert Step(s3, e).value == Holding(s, c);
  }

  /** The state of a caller that has just put its key in the file. */
  function Written(s: State, c: Caller, k: string): State
    requires c in s.pc && s.pc[c].Absent?
  {
    s.(file := Some(Rewrite(s.file, k)), generated := s.generated + [k], pc := s.pc[c := Stored(s.pc[c].inode, k)])
  }

  lemma RunsToWritten(s0: State, s: State, c: Caller, k: string)
    requires Reaches(s0, s) && c in s.pc && c in s.env && c in s.first && s.pc[c].Absent? && IsKey(k)
    ensures Reaches(s0, Written(s, c, k))
  {
    hide IsKey; hide Contains; hide Split; hide Reaches; hide OtherLines;
    var e := Advance(c);
    ReachStep(s0, s, Generate(c, k));
    var s1 := Step(s, Generate(c, k)).value;
    ReachStep(s0, s1, e);
    var s2 := Step(s1, e).value;
    ReachStep(s0, s2, e);
    var s3 := Step(s2, e).value;
    if s3.pc[c].Truncated? {
      ReachStep(s0, s3, e);
      assert Step(s3, e).value == Written(s, c, k);
    } else {
      assert s3 == Written(s, c, k);
    }
  }

  /** The state after a caller that stored its key has left. */
  function Left(s: State, c: Caller): State
    requires c in s.pc && c in s.env && s.pc[c].Stored?
  {
    s.(env := s.env[c := s.env[c][ENV_KEY := s.pc[c].key]], owner := s.owner - {s.pc[c].inode}, lockPath := None,
       pc := s.pc[c := Idle], outcomes := s.outcomes + [(c, Key(s.pc[c].key))])
  }

  lemma RunsToLeft(s0: State, s: State, c: Caller)
    requires Reaches(s0, s) && c in s.pc && c in s.env && c in s.first && s.pc[c].Stored?
    ensures Reaches(s0, Left(s, c))
  {
    hide Reaches;
    var e := Advance(c);
    ReachStep(s0, s, e);
    var s1 := Step(s, e).value;
    ReachStep(s0, s1, e);
    var s2 := Step(s1, e).value;
    ReachStep(s0, s2, e);
    assert Step(s2, e).value == Left(s, c);
  }

  /** A whole call that generates. */
  function Called(s: State, c: Caller, k: string): State
    requires Ready(s, c)
  {
    Left(Written(Holding(s, c), c, k), c)
  }

  lemma RunsToCalled(s0: State, s: State, c: Caller, k: string)
    requires Reaches(s0, s) && Ready(s, c) && IsKey(k)
    ensures Reaches(s0, Called(s, c, k))
  {
    assert c in s.pc && c in s.env && c in s.first;
    hide Reaches; hide Ready; hide IsKey; hide Rewrite; hide LoadFile;
    RunsToHolding(s0, s, c);
    RunsToWritten(s0, Holding(s, c), c, k);
    RunsToLeft(s0, Written(Holding(s, c), c, k), c);
  }

  // ---- exactly which files are safe ----

  /** If the file is not safe to rewrite, the second of two callers disagrees with the first. */
  lemma UnsafeFileDisagrees(file: Option<string>, k: string, k': string)
    requires LoadFile(map[], file).ok && !HasKey(FileEnv(file)) && !SafeToRewrite(file)
    requires IsKey(k) && IsKey(k') && k != k'
    ensures exists t | Reaches(Start(file, map[0 := map[], 1 := map[]]), t) :: !Agreed(t)
  {
    var s0 := Start(file, map[0 := map[], 1 := map[]]);
    ReachSelf(s0);
    EmptyFile();
    RunsToCalled(s0, s0, 0, k);
    var s1 := Called(s0, 0, k);
    RewriteReadsBack(file, k);
    assert s1.file == Some(Rewrite(file, k)) && s1.outcomes == [(0, Key(k))] && s1.env[1] == map[];
    assert s1.owner == map[] && s1.lockPath.None? && s1.first == s0.first;
    assert 1 in s1.pc && s1.pc[1].Idle? && 1 in s1.env && !ReadsBack(Rewrite(file, k), k);
    hide *;
    SecondDisagrees(s0, s1, k, k');
  }

  /** The second caller cannot read what the first one stored. */
  lemma SecondDisagrees(s0: State, s1: State, k: string, k': string)
    requires Reaches(s0, s1) && IsKey(k') && k != k' && !HasKey(map[])
    requires s1.file.Some? && !ReadsBack(s1.file.value, k) && s1.outcomes == [(0, Key(k))]
    requires 1 in s1.pc && 1 in s1.env && s1.pc[1].Idle? && s1.env[1] == map[] && s1.owner == map[] && s1.lockPath.None?
    requires s1.first == map[0 := map[], 1 := map[]]
    ensures exists t | Reaches(s0, t) :: !Agreed(t)
  {
    var l := LoadFile(map[], s1.file);
    hide Reaches; hide IsKey; hide Rewrite; hide Strip; hide LoadLines; hide Split;
    if l.ok && !HasKey(l.env) {
      RunsToCalled(s0, s1, 1, k');
      assert Called(s1, 1, k').outcomes == [(0, Key(k)), (1, Key(k'))];
      Disagrees(Called(s1, 1, k'));
    } else {
      ReachStep(s0, s1, Advance(1));
      assert Bindings(s1.file.value) == l;
      Disagrees(Step(s1, Advance(1)).value);
    }
  }

  lemma Disagrees(t: State)
    requires |t.outcomes| == 2 && Unpreset(t, t.outcomes[0].0) && Unpreset(t, t.outcomes[1].0)
    requires t.outcomes[0].1 != t.outcomes[1].1
    ensures !Agreed(t)
  {
  }

  /** If loading the file is refused, the first call raises. */
  lemma RefusedFileDisagrees(file: Option<string>)
    requires !LoadFile(map[], file).ok
    ensures exists t | Reaches(Start(file, map[0 := map[]]), t) :: !Agreed(t)
  {
    var s0 := Start(file, map[0 := map[]]);
    ReachSelf(s0);
    assert LoadFile(s0.env[0], s0.file) == LoadFile(map[], file);
    hide Reaches; hide LoadFile; hide Strip;
    ReachStep(s0, s0, Advance(0));
    var t := Step(s0, Advance(0)).value;
    assert t.outcomes == [(0, Refused)] && !HasKey(map[]);
    assert Unpreset(t, t.outcomes[0].0) && !t.outcomes[0].1.Key?;
  }

  /** The exact condition, for every file: callers agree in every reachable state of every set of
      callers if and only if the file loads and binds the key or is safe to rewrite. */
  lemma AgreementExactlyWhenSafe(file: Option<string>)
    ensures LoadFile(map[], file).ok && (HasKey(FileEnv(file)) || SafeToRewrite(file)) <==>
            forall first: map<Caller, Environ>, t | Reaches(Start(file, first), t) :: Agreed(t)
  {
    if !LoadFile(map[], file).ok {
      RefusedFileDisagrees(file);
    } else if HasKey(FileEnv(file)) || SafeToRewrite(file) {
      forall first: map<Caller, Environ>, t | Reaches(Start(file, first), t) ensures Agreed(t) {
        var events :| Exec(Start(file, first), events) == Some(t);
        KeyAgreement(file, first, events);
      }
    } else {
      assert IsKey("A") && IsKey("B");
      UnsafeFileDisagrees(file, "A", "B");
    }
  }
}
