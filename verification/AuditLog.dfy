/** The audit log: an append-only file that is shifted into numbered backups by a chain of
    renames once it has reached its size limit.

    A directory maps names to contents; a content is the sequence of lines written to the file.
    The rotation is written once, over contents of any kind, because the proofs also run it on
    the stretches of the history that the files hold. `Faults` says which system calls fail.
    The failures of a rotation change nothing and are ignored, as in the original; the append
    raises, and leaves nothing or an empty file behind. */
module AuditLog {

  type Byte = b: int | 0 <= b < 256
  type Line = seq<Byte>

  datatype Name = Current | Backup(i: int)

  type Dir<T> = map<Name, T>

  /** How the append ends: the line is written; it is written but forcing it to the disk raises;
      the file cannot be opened; or it is opened, and made if it was missing, but the line is not
      written. */
  datatype Ending = Written | NotForced | NotOpened | NotWritten {
    predicate Stores() {
      Written? || NotForced?
    }
  }

  /** Which calls of one event fail: the size query, the removal of the oldest backup, the shifts
      by source number, the last rename, and the append. */
  datatype Faults = Faults(size: bool, remove: bool, shifts: set<int>, last: bool, append: Ending)

  const NO_FAULTS := Faults(false, false, {}, false, Written)

  /** The bytes of a file. */
  function Joined(content: seq<Line>): seq<Byte> {
    if content == [] then [] else Joined(content[..|content| - 1]) + content[|content| - 1]
  }

  /** A file holds the bytes of its lines, one after the other. */
  lemma {:induction false} JoinedConcat(a: seq<Line>, b: seq<Line>)
    ensures Joined(a + b) == Joined(a) + Joined(b)
  {
    if b == [] {
      assert a + b == a;
    } else {
      JoinedConcat(a, b[..|b| - 1]);
      assert (a + b)[..|a + b| - 1] == a + b[..|b| - 1];
    }
  }

  lemma JoinedOne(line: Line)
    ensures Joined([line]) == line
  {
    assert [line][..0] == [];
  }

  // ---- rotation ----

  function Rename<T>(d: Dir<T>, src: Name, dst: Name): Dir<T> {
    if src in d then (d - {src})[dst := d[src]] else d
  }

  function Shift<T>(d: Dir<T>, i: int, failing: set<int>): Dir<T>
    decreases i
  {
    if i <= 0 then d
    else Shift(if i in failing then d else Rename(d, Backup(i), Backup(i + 1)), i - 1, failing)
  }

  function Rotate<T>(d: Dir<T>, maxBackups: int, f: Faults): Dir<T> {
    var d1 := if f.remove then d else d - {Backup(maxBackups)};
    var d2 := Shift(d1, maxBackups - 1, f.shifts);
    if f.last then d2 else Rename(d2, Current, Backup(1))
  }

  predicate Due(d: Dir<seq<Line>>, maxBytes: int, f: Faults) {
    Current in d && !f.size && |Joined(d[Current])| >= maxBytes
  }

  function Append(d: Dir<seq<Line>>, line: Line): Dir<seq<Line>> {
    d[Current := (if Current in d then d[Current] else []) + [line]]
  }

  /** The append, whichever way it ends. */
  function Appended(d: Dir<seq<Line>>, line: Line, ending: Ending): Dir<seq<Line>> {
    match ending
    case Written => Append(d, line)
    case NotForced => Append(d, line)
    case NotOpened => d
    case NotWritten => if Current in d then d else d[Current := []]
  }

  /** How many backups the rotation can leave: the last rename makes one in any case. */
  function Kept(maxBackups: int): nat {
    if maxBackups < 1 then 1 else maxBackups
  }

  /** One event: rotate if due, then append. */
  function Logged(d: Dir<seq<Line>>, line: Line, maxBytes: int, maxBackups: int, f: Faults): Dir<seq<Line>> {
    Appended(if Due(d, maxBytes, f) then Rotate(d, maxBackups, f) else d, line, f.append)
  }

  datatype Event = Event(line: Line, faults: Faults)

  /** The history: the lines that were written. */
  function Lines(events: seq<Event>): (h: seq<Line>)
    ensures |h| <= |events|
  {
    if events == [] then []
    else
      var front, e := Lines(events[..|events| - 1]), events[|events| - 1];
      if e.faults.append.Stores() then front + [e.line] else front
  }

  /** The directory after these events, starting from an empty one. */
  function RunLog(events: seq<Event>, maxBytes: int, maxBackups: int): Dir<seq<Line>> {
    if events == [] then map[]
    else
      var e := events[|events| - 1];
      Logged(RunLog(events[..|events| - 1], maxBytes, maxBackups), e.line, maxBytes, maxBackups, e.faults)
  }

  /** One more event. */
  lemma RunLogSnoc(events: seq<Event>, e: Event, maxBytes: int, maxBackups: int)
    ensures RunLog(events + [e], maxBytes, maxBackups)
         == Logged(RunLog(events, maxBytes, maxBackups), e.line, maxBytes, maxBackups, e.faults)
    ensures Lines(events + [e]) == if e.faults.append.Stores() then Lines(events) + [e.line] else Lines(events)
  {
    assert (events + [e])[..|events|] == events;
    hide Logged;
  }

  // ---- the logger ----

  class AuditLogger {
    const maxBytes: int
    const maxBackups: int
    var files: Dir<seq<Line>>
    ghost var events: seq<Event>

    ghost predicate Valid()
      reads this
    {
      files == RunLog(events, maxBytes, maxBackups)
    }

    constructor (maxBytes: int, maxBackups: int)
      ensures this.maxBytes == maxBytes && this.maxBackups == maxBackups
      ensures Valid() && events == []
    {
      this.maxBytes, this.maxBackups := maxBytes, maxBackups;
      files, events := map[], [];
    }

    /** Called with the lock held. */
    method RotateIfNeeded(f: Faults)
      modifies `files
      ensures files == if Due(old(files), maxBytes, f) then Rotate(old(files), maxBackups, f) else old(files)
    {
      if Current !in files || f.size {
        return;
      }
      if |Joined(files[Current])| < maxBytes {
        return;
      }
      if !f.remove {
        files := files - {Backup(maxBackups)};
      }
      ghost var before := files;
      var i := maxBackups - 1;
      while i > 0
        invariant Shift(files, i, f.shifts) == Shift(before, maxBackups - 1, f.shifts)
      {
        if i !in f.shifts {
          files := Rename(files, Backup(i), Backup(i + 1));
        }
        i := i - 1;
      }
      if !f.last {
        files := Rename(files, Current, Backup(1));
      }
    }

    /** One event, under the lock. A line that is stored is the last of the current file; the call
        raises unless it is also forced to the disk. */
    method LogEvent(line: Line, f: Faults) returns (ok: bool)
      requires Valid()
      modifies this
      ensures Valid() && events == old(events) + [Event(line, f)] && ok == f.append.Written?
      ensures files == Logged(old(files), line, maxBytes, maxBackups, f)
      ensures f.append.Stores() ==>
        Current in files && files[Current] != [] && files[Current][|files[Current]| - 1] == line
    {
      RunLogSnoc(events, Event(line, f), maxBytes, maxBackups);
      hide Rotate; hide Due; hide RunLog;
      RotateIfNeeded(f);
      events := events + [Event(line, f)];
      if f.append.NotOpened? {
        return false;
      }
      if Current !in files {
        files := files[Current := []];
      }
      if f.append.NotWritten? {
        return false;
      }
      files := files[Current := files[Current] + [line]];
      return f.append.Written?;
    }
  }

  // ---- the stretches of the history ----

  datatype Span = Span(lo: nat, hi: nat)

  function Slice(history: seq<Line>, s: Span): seq<Line> {
    if s.lo <= s.hi <= |history| then history[s.lo..s.hi] else []
  }

  function Contents(history: seq<Line>, spans: Dir<Span>): Dir<seq<Line>> {
    map n | n in spans :: Slice(history, spans[n])
  }

  function Age(n: Name): int {
    if n.Current? then 0 else n.i
  }

  /** Every file holds a stretch of the history, older files hold earlier ones, and the current
      file, if there is one, reaches to its end. */
  predicate Ordered(spans: Dir<Span>, kept: nat, len: nat) {
    && (forall n | n in spans :: n.Backup? ==> 1 <= n.i <= kept)
    && (forall n | n in spans :: spans[n].lo <= spans[n].hi <= len)
    && (forall m, n | m in spans && n in spans && Age(m) > Age(n) :: spans[m].hi <= spans[n].lo)
    && (Current in spans ==> spans[Current].hi == len)
  }

  function RunSpans(events: seq<Event>, maxBytes: int, maxBackups: int): Dir<Span> {
    if events == [] then map[]
    else
      var front, e := events[..|events| - 1], events[|events| - 1];
      var s := RunSpans(front, maxBytes, maxBackups);
      var due := Due(RunLog(front, maxBytes, maxBackups), maxBytes, e.faults);
      var s' := if due then Rotate(s, maxBackups, e.faults) else s;
      AppendedSpan(s', |Lines(front)|, e.faults.append)
  }

  function AppendedSpan(spans: Dir<Span>, len: nat, ending: Ending): Dir<Span> {
    match ending
    case Written => AppendSpan(spans, len)
    case NotForced => AppendSpan(spans, len)
    case NotOpened => spans
    case NotWritten => if Current in spans then spans else spans[Current := Span(len, len)]
  }

  function AppendSpan(spans: Dir<Span>, len: nat): Dir<Span> {
    spans[Current := Span(if Current in spans then spans[Current].lo else len, len + 1)]
  }

  lemma AppendOrdered(spans: Dir<Span>, kept: nat, len: nat)
    requires Ordered(spans, kept, len)
    ensures Ordered(AppendSpan(spans, len), kept, len + 1)
  {
  }

  lemma AppendContents(history: seq<Line>, spans: Dir<Span>, line: Line, kept: nat)
    requires Ordered(spans, kept, |history|)
    ensures Contents(history + [line], AppendSpan(spans, |history|)) == Append(Contents(history, spans), line)
  {
    var h, s := history + [line], AppendSpan(spans, |history|);
    forall n | n in s ensures Slice(h, s[n]) == Append(Contents(history, spans), line)[n] {
      if n == Current {
        AppendToCurrent(history, spans, line, kept);
      } else {
        SpanFacts(spans, n, kept, |history|);
        hide Ordered; hide Append;
        assert s[n] == spans[n] && h[s[n].lo..s[n].hi] == history[s[n].lo..s[n].hi];
      }
    }
  }

  lemma AppendToCurrent(history: seq<Line>, spans: Dir<Span>, line: Line, kept: nat)
    requires Ordered(spans, kept, |history|)
    ensures Slice(history + [line], AppendSpan(spans, |history|)[Current])
            == Append(Contents(history, spans), line)[Current]
  {
    if Current in spans {
      SpanFacts(spans, Current, kept, |history|);
      assert (history + [line])[spans[Current].lo..] == history[spans[Current].lo..] + [line];
    } else {
      assert (history + [line])[|history|..] == [line];
      assert AppendSpan(spans, |history|)[Current] == Span(|history|, |history| + 1);
      assert Slice(history + [line], Span(|history|, |history| + 1)) == [line];
    }
  }

  // ---- any failures: order is kept and nothing is doubled ----

  lemma RenameKeepsOrder(spans: Dir<Span>, i: int, kept: nat, len: nat)
    requires Ordered(spans, kept, len) && 1 <= i < kept
    ensures Ordered(Rename(spans, Backup(i), Backup(i + 1)), kept, len)
  {
  }

  lemma {:induction false} ShiftKeepsOrder(spans: Dir<Span>, i: int, failing: set<int>, kept: nat, len: nat)
    requires Ordered(spans, kept, len) && i < kept
    ensures Ordered(Shift(spans, i, failing), kept, len)
    decreases i
  {
    if i > 0 {
      var s := if i in failing then spans else Rename(spans, Backup(i), Backup(i + 1));
      RenameKeepsOrder(spans, i, kept, len);
      ShiftKeepsOrder(s, i - 1, failing, kept, len);
    }
  }

  lemma LastRenameKeepsOrder(spans: Dir<Span>, kept: nat, len: nat)
    requires Ordered(spans, kept, len) && kept >= 1
    ensures Ordered(Rename(spans, Current, Backup(1)), kept, len)
  {
  }

  lemma RemoveKeepsOrder(spans: Dir<Span>, n: Name, kept: nat, len: nat)
    requires Ordered(spans, kept, len)
    ensures Ordered(spans - {n}, kept, len)
  {
  }

  /** Whatever subset of the calls fails, files still hold ordered, disjoint stretches. */
  lemma RotateKeepsOrder(spans: Dir<Span>, maxBackups: int, f: Faults, len: nat)
    requires Ordered(spans, Kept(maxBackups), len)
    ensures Ordered(Rotate(spans, maxBackups, f), Kept(maxBackups), len)
  {
    hide Ordered; hide Shift;
    var kept := Kept(maxBackups);
    var d1 := if f.remove then spans else spans - {Backup(maxBackups)};
    RemoveKeepsOrder(spans, Backup(maxBackups), kept, len);
    ShiftKeepsOrder(d1, maxBackups - 1, f.shifts, kept, len);
    LastRenameKeepsOrder(Shift(d1, maxBackups - 1, f.shifts), kept, len);
  }

  lemma {:induction false} ShiftContents(history: seq<Line>, spans: Dir<Span>, i: int, failing: set<int>)
    ensures Contents(history, Shift(spans, i, failing)) == Shift(Contents(history, spans), i, failing)
    decreases i
  {
    if i > 0 {
      var s := if i in failing then spans else Rename(spans, Backup(i), Backup(i + 1));
      assert Contents(history, Rename(spans, Backup(i), Backup(i + 1)))
             == Rename(Contents(history, spans), Backup(i), Backup(i + 1));
      ShiftContents(history, s, i - 1, failing);
    }
  }

  /** Rotating the stretches and rotating the files are the same thing. */
  lemma RotateContents(history: seq<Line>, spans: Dir<Span>, maxBackups: int, f: Faults)
    ensures Contents(history, Rotate(spans, maxBackups, f)) == Rotate(Contents(history, spans), maxBackups, f)
  {
    var d1 := if f.remove then spans else spans - {Backup(maxBackups)};
    var d := Contents(history, spans);
    assert Contents(history, d1) == if f.remove then d else d - {Backup(maxBackups)};
    ShiftContents(history, d1, maxBackups - 1, f.shifts);
    var d2 := Shift(d1, maxBackups - 1, f.shifts);
    assert Contents(history, Rename(d2, Current, Backup(1))) == Rename(Contents(history, d2), Current, Backup(1));
  }

  /** The files read from the oldest backup to the current one. */
  function Flat(d: Dir<seq<Line>>, kept: nat): seq<Line>
    decreases kept
  {
    if kept == 0 then (if Current in d then d[Current] else [])
    else (if Backup(kept) in d then d[Backup(kept)] else []) + Flat(d, kept - 1)
  }

  function Range(s: Span): seq<nat> {
    if s.lo <= s.hi then seq(s.hi - s.lo, i requires 0 <= i < s.hi - s.lo => s.lo + i) else []
  }

  function Positions(spans: Dir<Span>, kept: nat): seq<nat>
    decreases kept
  {
    if kept == 0 then (if Current in spans then Range(spans[Current]) else [])
    else (if Backup(kept) in spans then Range(spans[Backup(kept)]) else []) + Positions(spans, kept - 1)
  }

  /** `a` is made of the lines of `b` at the strictly increasing positions `pos`. */
  predicate Picks(a: seq<Line>, b: seq<Line>, pos: seq<nat>) {
    && |pos| == |a|
    && (forall i | 0 <= i < |pos| :: pos[i] < |b| && a[i] == b[pos[i]])
    && (forall i, j | 0 <= i < j < |pos| :: pos[i] < pos[j])
  }

  lemma PicksConcat(a: seq<Line>, p: seq<nat>, c: seq<Line>, q: seq<nat>, b: seq<Line>, mid: nat)
    requires Picks(a, b, p) && Picks(c, b, q)
    requires (forall i | 0 <= i < |p| :: p[i] < mid) && (forall i | 0 <= i < |q| :: mid <= q[i])
    ensures Picks(a + c, b, p + q)
  {
  }

  /** Positions taken from the younger files lie behind every older file. */
  lemma {:induction false} OlderComesFirst(spans: Dir<Span>, upTo: nat, kept: nat, len: nat, m: Name)
    requires Ordered(spans, kept, len) && m in spans && Age(m) > upTo
    ensures forall i | 0 <= i < |Positions(spans, upTo)| :: spans[m].hi <= Positions(spans, upTo)[i]
    decreases upTo
  {
    if upTo > 0 {
      OlderComesFirst(spans, upTo - 1, kept, len, m);
      if Backup(upTo) in spans {
        assert Age(m) > Age(Backup(upTo));
      }
    } else if Current in spans {
      assert Age(m) > Age(Current);
    }
  }

  lemma FlatUnfolds(history: seq<Line>, spans: Dir<Span>, n: nat)
    requires n > 0
    ensures Backup(n) in spans ==>
      && Flat(Contents(history, spans), n) == Slice(history, spans[Backup(n)]) + Flat(Contents(history, spans), n - 1)
      && Positions(spans, n) == Range(spans[Backup(n)]) + Positions(spans, n - 1)
    ensures Backup(n) !in spans ==>
      && Flat(Contents(history, spans), n) == Flat(Contents(history, spans), n - 1)
      && Positions(spans, n) == Positions(spans, n - 1)
  {
    var rest, pos := Flat(Contents(history, spans), n - 1), Positions(spans, n - 1);
    assert [] + rest == rest && [] + pos == pos;
  }

  lemma SpanFacts(spans: Dir<Span>, n: Name, kept: nat, len: nat)
    requires Ordered(spans, kept, len) && n in spans
    ensures spans[n].lo <= spans[n].hi <= len && (n.Backup? ==> Age(n) == n.i)
  {
  }

  lemma {:induction false} FlatPicks(history: seq<Line>, spans: Dir<Span>, upTo: nat, kept: nat)
    requires Ordered(spans, kept, |history|) && upTo <= kept
    ensures Picks(Flat(Contents(history, spans), upTo), history, Positions(spans, upTo))
    decreases upTo
  {
    hide *;
    if upTo > 0 {
      FlatPicks(history, spans, upTo - 1, kept);
      FlatUnfolds(history, spans, upTo);
      var n := Backup(upTo);
      if n in spans {
        SpanFacts(spans, n, kept, |history|);
        var s, d := spans[n], Contents(history, spans);
        RangePicks(history, s);
        OlderComesFirst(spans, upTo - 1, kept, |history|, n);
        PicksConcat(Slice(history, s), Range(s), Flat(d, upTo - 1), Positions(spans, upTo - 1), history, s.hi);
      }
    } else {
      CurrentPicks(history, spans, kept);
    }
  }

  lemma CurrentPicks(history: seq<Line>, spans: Dir<Span>, kept: nat)
    requires Ordered(spans, kept, |history|)
    ensures Picks(Flat(Contents(history, spans), 0), history, Positions(spans, 0))
  {
    if Current in spans {
      RangePicks(history, spans[Current]);
      hide Picks; hide Slice; hide Range;
    }
  }

  lemma RangePicks(history: seq<Line>, s: Span)
    requires s.lo <= s.hi <= |history|
    ensures Picks(Slice(history, s), history, Range(s))
    ensures forall i | 0 <= i < |Range(s)| :: s.lo <= Range(s)[i] < s.hi
  {
  }

  /** The end of the history is in the current file or, while that is missing or empty, in the
      first backup. */
  predicate NewestKept(spans: Dir<Span>, len: nat) {
    len == 0 ||
    if Current in spans && spans[Current].lo < spans[Current].hi then spans[Current].hi == len
    else Backup(1) in spans && spans[Backup(1)].lo < spans[Backup(1)].hi == len
  }

  lemma {:induction false} LastPosition(spans: Dir<Span>, upTo: nat, len: nat)
    requires NewestKept(spans, len) && len > 0
    requires upTo >= 1 || (Current in spans && spans[Current].lo < spans[Current].hi)
    ensures var p := Positions(spans, upTo); p != [] && p[|p| - 1] == len - 1
    decreases upTo
  {
    if upTo > 0 {
      if upTo > 1 || (Current in spans && spans[Current].lo < spans[Current].hi) {
        LastPosition(spans, upTo - 1, len);
      } else {
        assert Positions(spans, 0) == [];
      }
    }
  }

  function Extended(history: seq<Line>, line: Line, ending: Ending): seq<Line> {
    if ending.Stores() then history + [line] else history
  }

  /** However the append ends, the files are the stretches it leaves them. */
  lemma AppendedFits(history: seq<Line>, spans: Dir<Span>, line: Line, kept: nat, ending: Ending)
    requires Ordered(spans, kept, |history|)
    ensures var h, s := Extended(history, line, ending), AppendedSpan(spans, |history|, ending);
      Ordered(s, kept, |h|) && Contents(h, s) == Appended(Contents(history, spans), line, ending)
  {
    if ending.Stores() {
      AppendOrdered(spans, kept, |history|);
      AppendContents(history, spans, line, kept);
    } else if ending.NotWritten? {
      OpenedContents(history, spans, line, kept);
    }
  }

  /** An opened file that is not written to shows nothing. */
  lemma OpenedContents(history: seq<Line>, spans: Dir<Span>, line: Line, kept: nat)
    requires Ordered(spans, kept, |history|)
    ensures var s := AppendedSpan(spans, |history|, NotWritten);
      Ordered(s, kept, |history|) && Contents(history, s) == Appended(Contents(history, spans), line, NotWritten)
  {
    if Current !in spans {
      NewFileOrdered(spans, kept, |history|);
      NewFileContents(history, spans);
      hide Ordered; hide Contents;
    }
  }

  lemma NewFileContents(history: seq<Line>, spans: Dir<Span>)
    ensures Contents(history, spans[Current := Span(|history|, |history|)]) == Contents(history, spans)[Current := []]
  {
    assert Slice(history, Span(|history|, |history|)) == [];
  }

  lemma NewFileOrdered(spans: Dir<Span>, kept: nat, len: nat)
    requires Ordered(spans, kept, len) && Current !in spans
    ensures Ordered(spans[Current := Span(len, len)], kept, len)
  {
  }

  /** The files of any run are the stretches the run leaves them. */
  lemma {:induction false} RunIsOrdered(events: seq<Event>, maxBytes: int, maxBackups: int)
    ensures var s := RunSpans(events, maxBytes, maxBackups);
      && Ordered(s, Kept(maxBackups), |Lines(events)|)
      && RunLog(events, maxBytes, maxBackups) == Contents(Lines(events), s)
  {
    if events != [] {
      var front, e := events[..|events| - 1], events[|events| - 1];
      RunIsOrdered(front, maxBytes, maxBackups);
      var d, s, h := RunLog(front, maxBytes, maxBackups), RunSpans(front, maxBytes, maxBackups), Lines(front);
      var s' := if Due(d, maxBytes, e.faults) then Rotate(s, maxBackups, e.faults) else s;
      assert Lines(events) == Extended(h, e.line, e.faults.append);
      assert RunSpans(events, maxBytes, maxBackups) == AppendedSpan(s', |h|, e.faults.append);
      assert RunLog(events, maxBytes, maxBackups) ==
             Appended(if Due(d, maxBytes, e.faults) then Rotate(d, maxBackups, e.faults) else d,
                      e.line, e.faults.append);
      hide *;
      RotateKeepsOrder(s, maxBackups, e.faults, |h|);
      RotateContents(h, s, maxBackups, e.faults);
      AppendedFits(h, s', e.line, Kept(maxBackups), e.faults.append);
    }
  }

  /** Under any failures, after any number of events: the files read oldest first are lines of
      the history at strictly increasing positions, so in order and never twice. */
  lemma RetainedInOrder(events: seq<Event>, maxBytes: int, maxBackups: int)
    ensures var d, kept := RunLog(events, maxBytes, maxBackups), Kept(maxBackups);
      Picks(Flat(d, kept), Lines(events), Positions(RunSpans(events, maxBytes, maxBackups), kept))
  {
    RunIsOrdered(events, maxBytes, maxBackups);
    FlatPicks(Lines(events), RunSpans(events, maxBytes, maxBackups), Kept(maxBackups), Kept(maxBackups));
  }

  // ---- the newest line is retained ----

  lemma AppendKeepsNewest(spans: Dir<Span>, kept: nat, len: nat, ending: Ending)
    requires Ordered(spans, kept, len) && NewestKept(spans, len)
    ensures NewestKept(AppendedSpan(spans, len, ending), if ending.Stores() then len + 1 else len)
  {
  }

  lemma {:induction false} ShiftKeepsCurrent<T>(d: Dir<T>, i: int, failing: set<int>)
    ensures Current in Shift(d, i, failing) <==> Current in d
    ensures Current in d ==> Shift(d, i, failing)[Current] == d[Current]
    decreases i
  {
    if i > 0 {
      ShiftKeepsCurrent(if i in failing then d else Rename(d, Backup(i), Backup(i + 1)), i - 1, failing);
    }
  }

  /** A rotation moves a current file that holds the newest line to the first backup, or leaves
      it where it is. */
  lemma RotateKeepsNewest(spans: Dir<Span>, maxBackups: int, f: Faults, len: nat)
    requires NewestKept(spans, len) && Current in spans && spans[Current].lo < spans[Current].hi
    ensures NewestKept(Rotate(spans, maxBackups, f), len)
  {
    var d1 := if f.remove then spans else spans - {Backup(maxBackups)};
    ShiftKeepsCurrent(d1, maxBackups - 1, f.shifts);
    hide Shift;
  }

  lemma DueHasLines(history: seq<Line>, spans: Dir<Span>, maxBytes: int, f: Faults)
    requires Due(Contents(history, spans), maxBytes, f) && maxBytes > 0
    ensures Current in spans && spans[Current].lo < spans[Current].hi
  {
    assert |Joined([])| == 0;
    assert Slice(history, spans[Current]) != [];
  }

  /** No file was opened for a line and then not written. */
  predicate NeverHalfDone(events: seq<Event>) {
    forall i | 0 <= i < |events| :: !events[i].faults.append.NotWritten?
  }

  predicate Filled(spans: Dir<Span>) {
    forall n | n in spans :: spans[n].lo < spans[n].hi
  }

  lemma {:induction false} FilesAreFilled(events: seq<Event>, maxBytes: int, maxBackups: int)
    requires NeverHalfDone(events)
    ensures Filled(RunSpans(events, maxBytes, maxBackups))
  {
    if events != [] {
      var front, e := events[..|events| - 1], events[|events| - 1];
      FilesAreFilled(front, maxBytes, maxBackups);
      RunIsOrdered(front, maxBytes, maxBackups);
      var s := RunSpans(front, maxBytes, maxBackups);
      RotateKeepsFilled(s, maxBackups, e.faults);
      assert !e.faults.append.NotWritten?;
      assert Current in s ==> s[Current].hi == |Lines(front)|;
      RotateKeepsOrder(s, maxBackups, e.faults, |Lines(front)|);
      hide Rotate; hide Due; hide RunLog; hide Contents;
    }
  }

  lemma {:induction false} ShiftKeepsFilled(spans: Dir<Span>, i: int, failing: set<int>)
    requires Filled(spans)
    ensures Filled(Shift(spans, i, failing))
    decreases i
  {
    if i > 0 {
      ShiftKeepsFilled(if i in failing then spans else Rename(spans, Backup(i), Backup(i + 1)), i - 1, failing);
    }
  }

  lemma RotateKeepsFilled(spans: Dir<Span>, maxBackups: int, f: Faults)
    requires Filled(spans)
    ensures Filled(Rotate(spans, maxBackups, f))
  {
    ShiftKeepsFilled(if f.remove then spans else spans - {Backup(maxBackups)}, maxBackups - 1, f.shifts);
    hide Shift;
  }

  lemma {:induction false} RunKeepsNewest(events: seq<Event>, maxBytes: int, maxBackups: int)
    requires maxBytes > 0 || NeverHalfDone(events)
    ensures NewestKept(RunSpans(events, maxBytes, maxBackups), |Lines(events)|)
  {
    if events != [] {
      var front, e := events[..|events| - 1], events[|events| - 1];
      RunKeepsNewest(front, maxBytes, maxBackups);
      RunIsOrdered(front, maxBytes, maxBackups);
      var s, h := RunSpans(front, maxBytes, maxBackups), Lines(front);
      var due := Due(RunLog(front, maxBytes, maxBackups), maxBytes, e.faults);
      var s' := if due then Rotate(s, maxBackups, e.faults) else s;
      if due {
        if maxBytes > 0 { DueHasLines(h, s, maxBytes, e.faults); } else { FilesAreFilled(front, maxBytes, maxBackups); }
        RotateKeepsNewest(s, maxBackups, e.faults, |h|);
      }
      RotateKeepsOrder(s, maxBackups, e.faults, |h|);
      AppendKeepsNewest(s', Kept(maxBackups), |h|, e.faults.append);
      hide Rotate; hide Due; hide Contents; hide Ordered; hide NewestKept; hide RunLog; hide AppendedSpan;
    }
  }

  /** The last retained line is the newest one that was written. */
  ghost predicate EndsWithNewest(events: seq<Event>, maxBytes: int, maxBackups: int) {
    var flat, h := Flat(RunLog(events, maxBytes, maxBackups), Kept(maxBackups)), Lines(events);
    h != [] ==> flat != [] && flat[|flat| - 1] == h[|h| - 1]
  }

  /** It is under any failures, if the limit is positive or no opened file was left unwritten. */
  lemma NewestIsRetained(events: seq<Event>, maxBytes: int, maxBackups: int)
    requires maxBytes > 0 || NeverHalfDone(events)
    ensures EndsWithNewest(events, maxBytes, maxBackups)
  {
    if Lines(events) != [] {
      RetainedInOrder(events, maxBytes, maxBackups);
      RunKeepsNewest(events, maxBytes, maxBackups);
      hide Flat; hide RunLog; hide NewestKept; hide RunSpans; hide Lines;
      LastPosition(RunSpans(events, maxBytes, maxBackups), Kept(maxBackups), |Lines(events)|);
      hide Positions;
    }
  }

  const HALF_DONE := Faults(false, false, {}, false, NotWritten)

  /** One line, and then `k` events that open the file and fail. */
  function LineAndFailures(line: Line, k: nat): seq<Event> {
    [Event(line, NO_FAULTS)] + seq(k, _ => Event([], HALF_DONE))
  }

  /** The directory then, if the limit is not positive: every failure rotates, so the line has
      moved to backup `k`, and the other files are empty. */
  predicate Pushed(d: Dir<seq<Line>>, line: Line, k: nat, kept: nat) {
    && Current in d
    && (forall n | n in d :: n.Backup? ==> 1 <= n.i <= kept)
    && (forall n | n in d :: d[n] == if Age(n) == k then [line] else [])
  }

  lemma PushedOnce(d: Dir<seq<Line>>, line: Line, k: nat, maxBackups: int)
    requires Pushed(d, line, k, Kept(maxBackups))
    ensures Pushed(Appended(Rotate(d, maxBackups, HALF_DONE), [], NotWritten), line, k + 1, Kept(maxBackups))
  {
    RotateAges(d, maxBackups);
    var r := Rotate(d, maxBackups, HALF_DONE);
    assert r == Rotate(d, maxBackups, NO_FAULTS);
    hide Rotate;
    forall n | n in r ensures n.Backup? && r[n] == if Age(n) == k + 1 then [line] else [] {
      assert n == Backup(n.i);
      if n.i >= 2 { assert Backup(n.i - 1) in d && Age(Backup(n.i - 1)) == n.i - 1; }
    }
  }

  lemma {:induction false} FailuresPush(line: Line, k: nat, maxBytes: int, maxBackups: int)
    requires maxBytes <= 0
    ensures Pushed(RunLog(LineAndFailures(line, k), maxBytes, maxBackups), line, k, Kept(maxBackups))
    ensures Lines(LineAndFailures(line, k)) == [line]
  {
    var events := LineAndFailures(line, k);
    if k == 0 {
      assert events[..0] == [] && |events| == 1;
    } else {
      var front, e := LineAndFailures(line, k - 1), Event([], HALF_DONE);
      assert events == front + [e];
      FailuresPush(line, k - 1, maxBytes, maxBackups);
      RunLogSnoc(front, e, maxBytes, maxBackups);
      var d := RunLog(front, maxBytes, maxBackups);
      PushedOnce(d, line, k - 1, maxBackups);
      PushedIsDue(d, line, k - 1, maxBytes, maxBackups);
      hide Rotate; hide Pushed; hide Appended; hide Due; hide RunLog; hide Lines; hide LineAndFailures;
    }
  }

  lemma PushedIsDue(d: Dir<seq<Line>>, line: Line, k: nat, maxBytes: int, maxBackups: int)
    requires Pushed(d, line, k, Kept(maxBackups)) && maxBytes <= 0
    ensures Due(d, maxBytes, HALF_DONE)
  {
  }

  lemma {:induction false} AllEmpty(d: Dir<seq<Line>>, upTo: nat)
    requires forall n | n in d :: d[n] == []
    ensures Flat(d, upTo) == []
    decreases upTo
  {
    if upTo > 0 {
      AllEmpty(d, upTo - 1);
    }
  }

  /** The exact limits under which no failures can push the newest line out. */
  lemma NewestRetainedExactly(maxBytes: int, maxBackups: int)
    ensures (forall events :: EndsWithNewest(events, maxBytes, maxBackups)) <==> maxBytes > 0
  {
    if maxBytes > 0 {
      forall events ensures EndsWithNewest(events, maxBytes, maxBackups) {
        NewestIsRetained(events, maxBytes, maxBackups);
      }
    } else {
      var kept := Kept(maxBackups);
      var events := LineAndFailures([], kept + 1);
      FailuresPush([], kept + 1, maxBytes, maxBackups);
      AllEmpty(RunLog(events, maxBytes, maxBackups), kept);
      hide Flat; hide RunLog; hide Lines; hide LineAndFailures;
      assert !EndsWithNewest(events, maxBytes, maxBackups);
    }
  }

  // ---- no failures: the rotation is a greedy split ----

  /** A line joins the last piece until that piece has reached the limit, and then starts a
      new one. */
  function AddLine(p: seq<seq<Line>>, line: Line, maxBytes: int): seq<seq<Line>> {
    if p == [] || |Joined(p[|p| - 1])| >= maxBytes then p + [[line]]
    else p[..|p| - 1] + [p[|p| - 1] + [line]]
  }

  /** The history split greedily. */
  function Pieces(history: seq<Line>, maxBytes: int): seq<seq<Line>> {
    if history == [] then []
    else AddLine(Pieces(history[..|history| - 1], maxBytes), history[|history| - 1], maxBytes)
  }

  /** The last `kept + 1` pieces as files, newest in the current one. */
  function Layout(p: seq<seq<Line>>, kept: nat): Dir<seq<Line>> {
    map n | n in Names(kept) && Age(n) < |p| :: p[|p| - 1 - Age(n)]
  }

  function Names(kept: nat): (r: set<Name>)
    ensures forall n :: n in r <==> n.Current? || 1 <= n.i <= kept
  {
    var backups := set i | 1 <= i <= kept :: Backup(i);
    assert forall n: Name :: n.Backup? ==> n == Backup(n.i);
    {Current} + backups
  }

  /** What a chain of shifts does to a directory with room at its end. */
  lemma {:induction false} ShiftMovesAll<T>(d: Dir<T>, i: int)
    requires i >= 0 && Backup(i + 1) !in d
    ensures var r := Shift(d, i, {});
      && (forall n: Name | n.Current? || n.i < 1 || n.i > i + 1 :: (n in r <==> n in d) && (n in d ==> r[n] == d[n]))
      && Backup(1) !in r
      && (forall j | 2 <= j <= i + 1 ::
            && (Backup(j) in r <==> Backup(j - 1) in d)
            && (Backup(j - 1) in d ==> r[Backup(j)] == d[Backup(j - 1)]))
    decreases i
  {
    if i > 0 {
      ShiftMovesAll(Rename(d, Backup(i), Backup(i + 1)), i - 1);
    }
  }

  /** One rotation without failures ages every file by one and drops the oldest. */
  lemma RotateAges<T>(d: Dir<T>, maxBackups: int)
    requires Current in d && forall n | n in d :: n.Backup? ==> 1 <= n.i <= Kept(maxBackups)
    ensures var r := Rotate(d, maxBackups, NO_FAULTS);
      && (forall n | n in r :: n.Backup? && 1 <= n.i <= Kept(maxBackups))
      && Backup(1) in r && r[Backup(1)] == d[Current]
      && (forall j | 2 <= j <= Kept(maxBackups) ::
            (Backup(j) in r <==> Backup(j - 1) in d) && (Backup(j) in r ==> r[Backup(j)] == d[Backup(j - 1)]))
  {
    var d1 := d - {Backup(maxBackups)};
    if maxBackups >= 1 {
      ShiftMovesAll(d1, maxBackups - 1);
    }
  }

  /** The same, for one name. */
  lemma RotateAgesAt<T>(d: Dir<T>, maxBackups: int, n: Name)
    requires Current in d && forall n | n in d :: n.Backup? ==> 1 <= n.i <= Kept(maxBackups)
    ensures var r, from := Rotate(d, maxBackups, NO_FAULTS), if n == Backup(1) then Current else Backup(Age(n) - 1);
      && (n in r <==> n.Backup? && 1 <= n.i <= Kept(maxBackups) && from in d)
      && (n in r ==> r[n] == d[from])
  {
    RotateAges(d, maxBackups);
    hide Rotate; hide Shift;
    assert n.Backup? ==> n == Backup(n.i);
  }

  lemma LayoutAt(p: seq<seq<Line>>, kept: nat, n: Name)
    ensures n in Layout(p, kept) <==> Age(n) < |p| && (n.Current? || 1 <= n.i <= kept)
    ensures n in Layout(p, kept) ==> Layout(p, kept)[n] == p[|p| - 1 - Age(n)]
  {
  }

  lemma LayoutNames(p: seq<seq<Line>>, kept: nat)
    ensures forall n | n in Layout(p, kept) :: n.Backup? ==> 1 <= n.i <= kept
  {
  }

  lemma LoggedExtendsLayout(history: seq<Line>, line: Line, maxBytes: int, maxBackups: int)
    ensures Logged(Layout(Pieces(history, maxBytes), Kept(maxBackups)), line, maxBytes, maxBackups, NO_FAULTS)
         == Layout(Pieces(history + [line], maxBytes), Kept(maxBackups))
  {
    assert (history + [line])[..|history|] == history;
    var p, p', kept := Pieces(history, maxBytes), Pieces(history + [line], maxBytes), Kept(maxBackups);
    LayoutAt(p, kept, Current);
    var d := Layout(p, kept);
    if Due(d, maxBytes, NO_FAULTS) {
      RotatedLayout(p, line, maxBackups);
      assert p' == p + [[line]];
    } else {
      AppendedLayout(p, p', line, kept);
    }
  }

  lemma RotatedLayoutAt(p: seq<seq<Line>>, line: Line, r: Dir<seq<Line>>, maxBackups: int, n: Name)
    requires p != [] && r == Rotate(Layout(p, Kept(maxBackups)), maxBackups, NO_FAULTS)
    ensures var d' := Layout(p + [[line]], Kept(maxBackups));
      (n in Append(r, line) <==> n in d') && (n in d' ==> Append(r, line)[n] == d'[n])
  {
    var kept := Kept(maxBackups);
    LayoutAt(p, kept, Current);
    LayoutNames(p, kept);
    RotateAgesAt(Layout(p, kept), maxBackups, n);
    RotateAgesAt(Layout(p, kept), maxBackups, Current);
    LayoutAt(p + [[line]], kept, n);
    LayoutAt(p, kept, Backup(Age(n) - 1));
    hide Layout; hide Rotate; hide Kept;
  }

  lemma RotatedLayout(p: seq<seq<Line>>, line: Line, maxBackups: int)
    requires p != []
    ensures Append(Rotate(Layout(p, Kept(maxBackups)), maxBackups, NO_FAULTS), line)
            == Layout(p + [[line]], Kept(maxBackups))
  {
    hide *;
    var r := Rotate(Layout(p, Kept(maxBackups)), maxBackups, NO_FAULTS);
    forall n: Name ensures var d' := Layout(p + [[line]], Kept(maxBackups));
      (n in Append(r, line) <==> n in d') && (n in d' ==> Append(r, line)[n] == d'[n])
    {
      RotatedLayoutAt(p, line, r, maxBackups, n);
    }
  }

  lemma AppendedLayout(p: seq<seq<Line>>, p': seq<seq<Line>>, line: Line, kept: nat)
    requires p' == if p == [] then [[line]] else p[..|p| - 1] + [p[|p| - 1] + [line]]
    ensures Append(Layout(p, kept), line) == Layout(p', kept)
  {
    forall n: Name ensures var r := Append(Layout(p, kept), line);
      (n in r <==> n in Layout(p', kept)) && (n in r ==> r[n] == Layout(p', kept)[n])
    {
      LayoutAt(p, kept, n);
      LayoutAt(p', kept, n);
      hide Layout;
    }
  }

  predicate Clean(events: seq<Event>) {
    forall i | 0 <= i < |events| :: events[i].faults == NO_FAULTS
  }

  /** Without failures the directory is, after any run and file by file, the last pieces of the
      greedy split of the whole history: the current file the last one, backup `.i` the i-th
      before it. */
  lemma {:induction false} CleanRunIsGreedy(events: seq<Event>, maxBytes: int, maxBackups: int)
    requires Clean(events)
    ensures RunLog(events, maxBytes, maxBackups) == Layout(Pieces(Lines(events), maxBytes), Kept(maxBackups))
  {
    if events != [] {
      var front, e := events[..|events| - 1], events[|events| - 1];
      CleanRunIsGreedy(front, maxBytes, maxBackups);
      LoggedExtendsLayout(Lines(front), e.line, maxBytes, maxBackups);
    }
  }

  // ---- the greedy split, declaratively ----

  function Concat(p: seq<seq<Line>>): seq<Line> {
    if p == [] then [] else Concat(p[..|p| - 1]) + p[|p| - 1]
  }

  /** A piece that had not reached the limit before its last line. */
  predicate Grown(piece: seq<Line>, maxBytes: int) {
    piece != [] && (|piece| == 1 || |Joined(piece[..|piece| - 1])| < maxBytes)
  }

  /** A split in which every piece but the last has reached the limit, and none had reached it
      before its last line. */
  predicate Greedy(p: seq<seq<Line>>, maxBytes: int) {
    && (forall i | 0 <= i < |p| - 1 :: |Joined(p[i])| >= maxBytes)
    && (forall i | 0 <= i < |p| :: Grown(p[i], maxBytes))
  }

  lemma ConcatSnoc(p: seq<seq<Line>>, piece: seq<Line>)
    ensures Concat(p + [piece]) == Concat(p) + piece
  {
    assert (p + [piece])[..|p|] == p;
  }

  /** A line added to a piece below the limit. */
  lemma GrowLast(p: seq<seq<Line>>, line: Line, maxBytes: int)
    requires Greedy(p, maxBytes) && p != [] && |Joined(p[|p| - 1])| < maxBytes
    ensures var q := p[..|p| - 1] + [p[|p| - 1] + [line]];
      Greedy(q, maxBytes) && Concat(q) == Concat(p) + [line]
  {
    var init, last := p[..|p| - 1], p[|p| - 1];
    ConcatSnoc(init, last + [line]);
    assert Concat(init) + (last + [line]) == Concat(init) + last + [line];
    hide Concat; hide Joined;
    assert (last + [line])[..|last|] == last;
    assert Grown(last + [line], maxBytes);
  }

  lemma AddLineKeepsGreedy(p: seq<seq<Line>>, line: Line, maxBytes: int)
    requires Greedy(p, maxBytes)
    ensures Greedy(AddLine(p, line, maxBytes), maxBytes)
    ensures Concat(AddLine(p, line, maxBytes)) == Concat(p) + [line]
  {
    hide Concat; hide Joined;
    if p != [] && |Joined(p[|p| - 1])| < maxBytes {
      GrowLast(p, line, maxBytes);
    } else {
      ConcatSnoc(p, [line]);
    }
  }

  lemma {:induction false} PiecesAreGreedy(history: seq<Line>, maxBytes: int)
    ensures Greedy(Pieces(history, maxBytes), maxBytes) && Concat(Pieces(history, maxBytes)) == history
  {
    if history != [] {
      var front, line := history[..|history| - 1], history[|history| - 1];
      assert history == front + [line];
      assert Pieces(history, maxBytes) == AddLine(Pieces(front, maxBytes), line, maxBytes);
      hide *;
      PiecesAreGreedy(front, maxBytes);
      AddLineKeepsGreedy(Pieces(front, maxBytes), line, maxBytes);
    }
  }

  function DropLine(p: seq<seq<Line>>): seq<seq<Line>>
    requires p != [] && p[|p| - 1] != []
  {
    var init, last := p[..|p| - 1], p[|p| - 1];
    if |last| == 1 then init else init + [last[..|last| - 1]]
  }

  lemma DropLineUndoesAdd(p: seq<seq<Line>>, maxBytes: int)
    requires Greedy(p, maxBytes) && p != []
    ensures var q, last := DropLine(p), p[|p| - 1];
      && AddLine(q, last[|last| - 1], maxBytes) == p
      && Concat(p) == Concat(q) + [last[|last| - 1]]
  {
    var init, last := p[..|p| - 1], p[|p| - 1];
    assert Grown(last, maxBytes);
    var line := last[|last| - 1];
    assert last == last[..|last| - 1] + [line];
    if |last| == 1 {
      assert last == [line];
      assert init != [] ==> |Joined(init[|init| - 1])| >= maxBytes;
    } else {
      var q := last[..|last| - 1];
      ConcatSnoc(init, q);
      assert (init + [q])[..|init|] == init;
      assert Concat(init) + q + [line] == Concat(init) + last;
    }
  }

  lemma {:induction false} PrefixSize(piece: seq<Line>, k: nat)
    requires k <= |piece|
    ensures |Joined(piece[..k])| <= |Joined(piece)|
  {
    if k < |piece| {
      var front := piece[..|piece| - 1];
      assert front[..k] == piece[..k];
      PrefixSize(front, k);
    } else {
      assert piece[..k] == piece;
    }
  }

  lemma DropLineKeepsGreedy(p: seq<seq<Line>>, maxBytes: int)
    requires Greedy(p, maxBytes) && p != []
    ensures Greedy(DropLine(p), maxBytes)
  {
    var last := p[|p| - 1];
    assert Grown(last, maxBytes);
    if |last| > 1 {
      var q := last[..|last| - 1];
      PrefixSize(q, |q| - 1);
      assert Grown(q, maxBytes);
    }
  }

  /** There is only one greedy split. */
  lemma {:induction false} GreedyIsUnique(p: seq<seq<Line>>, maxBytes: int)
    requires Greedy(p, maxBytes)
    ensures p == Pieces(Concat(p), maxBytes)
    decreases |Concat(p)|
  {
    if p != [] {
      assert Grown(p[|p| - 1], maxBytes);
      var h, q := Concat(p), DropLine(p);
      DropLineUndoesAdd(p, maxBytes);
      DropLineKeepsGreedy(p, maxBytes);
      assert h[..|h| - 1] == Concat(q);
      GreedyIsUnique(q, maxBytes);
    }
  }

  // ---- what is retained, and how much ----

  lemma {:induction false} ConcatSplit(p: seq<seq<Line>>, k: nat)
    requires k <= |p|
    ensures Concat(p) == Concat(p[..k]) + Concat(p[k..])
  {
    if k == |p| {
      assert p[..k] == p && p[k..] == [];
    } else {
      var init := p[..|p| - 1];
      ConcatSplit(init, k);
      assert init[..k] == p[..k] && init[k..] == p[k..][..|p[k..]| - 1];
    }
  }

  lemma ConcatOne(piece: seq<Line>)
    ensures Concat([piece]) == piece
  {
    assert [piece][..0] == [];
  }

  function First(p: seq<seq<Line>>, kept: nat): (r: nat)
    ensures r <= |p| && |p| - r <= kept + 1
  {
    if |p| <= kept then 0 else |p| - kept - 1
  }

  lemma {:induction false} FlatOfLayout(p: seq<seq<Line>>, upTo: nat, kept: nat)
    requires upTo <= kept
    ensures Flat(Layout(p, kept), upTo) == Concat(p[First(p, upTo)..])
    decreases upTo
  {
    var k := First(p, upTo);
    LayoutAt(p, kept, Current);
    LayoutAt(p, kept, Backup(upTo));
    hide Layout;
    if upTo == 0 {
      if p != [] {
        assert p[k..] == [p[|p| - 1]];
        ConcatOne(p[|p| - 1]);
      }
    } else {
      FlatOfLayout(p, upTo - 1, kept);
      if upTo < |p| {
        ConcatSplit(p[k..], 1);
        assert p[k..][1..] == p[First(p, upTo - 1)..];
        assert p[k..][..1] == [p[k]];
        ConcatOne(p[k]);
      }
    }
  }

  /** Without failures the retained files, oldest first, are the end of the history: the lines
      of its last `kept + 1` pieces, with nothing missing in between. */
  lemma CleanRunKeepsSuffix(events: seq<Event>, maxBytes: int, maxBackups: int)
    requires Clean(events)
    ensures var p, kept := Pieces(Lines(events), maxBytes), Kept(maxBackups);
      && Flat(RunLog(events, maxBytes, maxBackups), kept) == Concat(p[First(p, kept)..])
      && Lines(events) == Concat(p[..First(p, kept)]) + Flat(RunLog(events, maxBytes, maxBackups), kept)
  {
    var p, kept := Pieces(Lines(events), maxBytes), Kept(maxBackups);
    CleanRunIsGreedy(events, maxBytes, maxBackups);
    FlatOfLayout(p, kept, kept);
    PiecesAreGreedy(Lines(events), maxBytes);
    ConcatSplit(p, First(p, kept));
  }

  lemma PiecesAreSmall(piece: seq<Line>, maxBytes: int, longest: nat)
    requires Grown(piece, maxBytes) && maxBytes > 0
    requires forall line | line in piece :: |line| <= longest
    ensures |Joined(piece)| <= maxBytes + longest - 1
  {
    assert piece[|piece| - 1] in piece;
    if |piece| == 1 {
      assert piece[..0] == [];
    }
  }

  lemma {:induction false} SizeOfPieces(p: seq<seq<Line>>, each: nat, k: nat)
    requires |p| <= k
    requires forall i | 0 <= i < |p| :: |Joined(p[i])| <= each
    ensures |Joined(Concat(p))| <= k * each
  {
    if p != [] {
      SizeOfPieces(p[..|p| - 1], each, k - 1);
      JoinedConcat(Concat(p[..|p| - 1]), p[|p| - 1]);
      assert (k - 1) * each + each == k * each;
    }
  }

  lemma {:induction false} PieceLinesInHistory(p: seq<seq<Line>>, i: nat, line: Line)
    requires i < |p| && line in p[i]
    ensures line in Concat(p)
  {
    if i < |p| - 1 {
      PieceLinesInHistory(p[..|p| - 1], i, line);
    }
  }

  lemma PiecesAreBounded(p: seq<seq<Line>>, maxBytes: int, longest: nat)
    requires Greedy(p, maxBytes) && maxBytes > 0
    requires forall line | line in Concat(p) :: |line| <= longest
    ensures forall i | 0 <= i < |p| :: |Joined(p[i])| <= maxBytes + longest - 1
  {
    forall i | 0 <= i < |p| ensures |Joined(p[i])| <= maxBytes + longest - 1 {
      forall line | line in p[i] ensures |line| <= longest {
        PieceLinesInHistory(p, i, line);
      }
      PiecesAreSmall(p[i], maxBytes, longest);
    }
  }

  /** Disk use without failures, for a positive limit and lines of at most `longest` bytes: a
      backup has reached the limit and exceeds it by less than one line, and all files
      together stay below `kept + 1` times that. */
  lemma DiskBound(events: seq<Event>, maxBytes: int, maxBackups: int, longest: nat)
    requires Clean(events) && maxBytes > 0
    requires forall i | 0 <= i < |events| :: |events[i].line| <= longest
    ensures var d, kept := RunLog(events, maxBytes, maxBackups), Kept(maxBackups);
      && (forall n | n in d :: |Joined(d[n])| <= maxBytes + longest - 1)
      && (forall n: Name | n in d && n.Backup? :: maxBytes <= |Joined(d[n])|)
      && |Joined(Flat(d, kept))| <= (kept + 1) * (maxBytes + longest - 1)
  {
    hide *;
    var kept, each := Kept(maxBackups), maxBytes + longest - 1;
    var p := Pieces(Lines(events), maxBytes);
    PiecesAreGreedy(Lines(events), maxBytes);
    LinesAreShort(events, longest);
    PiecesAreBounded(p, maxBytes, longest);
    CleanRunIsGreedy(events, maxBytes, maxBackups);
    LayoutIsBounded(p, kept, maxBytes, each);
    CleanRunKeepsSuffix(events, maxBytes, maxBackups);
    SizeOfPieces(p[First(p, kept)..], each, kept + 1);
  }

  lemma LayoutIsBounded(p: seq<seq<Line>>, kept: nat, maxBytes: int, each: int)
    requires Greedy(p, maxBytes) && forall i | 0 <= i < |p| :: |Joined(p[i])| <= each
    ensures forall n | n in Layout(p, kept) :: |Joined(Layout(p, kept)[n])| <= each
    ensures forall n: Name | n in Layout(p, kept) && n.Backup? :: maxBytes <= |Joined(Layout(p, kept)[n])|
  {
    hide Joined;
  }

  lemma {:induction false} LinesAreShort(events: seq<Event>, longest: nat)
    requires forall i | 0 <= i < |events| :: |events[i].line| <= longest
    ensures forall line | line in Lines(events) :: |line| <= longest
  {
    if events != [] {
      LinesAreShort(events[..|events| - 1], longest);
    }
  }
}
