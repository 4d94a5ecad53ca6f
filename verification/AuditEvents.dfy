/** What one event does to every file of the log, whatever fails, and what a whole run without
    failures leaves in every file. */
module AuditEvents {
  import opened AuditLog

  // ---- a rotation, file by file ----

  /** No call moves or removes this backup: the call that would have failed. */
  predicate Stays<T>(d: Dir<T>, maxBackups: int, f: Faults, j: int) {
    && Backup(j) in d
    && (j == maxBackups ==> f.remove)
    && (1 <= j < maxBackups ==> j in f.shifts)
  }

  /** The file that is renamed to this backup. */
  function Source(j: int): Name {
    if j == 1 then Current else Backup(j - 1)
  }

  predicate Arrives<T>(d: Dir<T>, maxBackups: int, f: Faults, j: int) {
    Source(j) in d && if j == 1 then !f.last else 2 <= j <= maxBackups && j - 1 !in f.shifts
  }

  lemma {:induction false} ShiftAt<T>(d: Dir<T>, i: int, failing: set<int>, n: Name)
    requires i >= 0
    ensures var r := Shift(d, i, failing);
      var stays := n in d && (n.Backup? && 1 <= n.i <= i ==> n.i in failing);
      var arrives := n.Backup? && 2 <= n.i <= i + 1 && Backup(n.i - 1) in d && n.i - 1 !in failing;
      && (n in r <==> arrives || stays)
      && (n in r ==> r[n] == if arrives then d[Backup(n.i - 1)] else d[n])
    decreases i
  {
    if i > 0 {
      assert n.Backup? ==> n == Backup(n.i);
      ShiftAt(if i in failing then d else Rename(d, Backup(i), Backup(i + 1)), i - 1, failing, n);
    }
  }

  /** A rotation with any calls failing: a backup receives its newer neighbour if that rename
      succeeds, keeps its content if nothing replaces it and the call that would have moved or
      removed it fails, and is gone otherwise. The current file stays only if its own rename
      fails. */
  lemma RotatesTo<T>(d: Dir<T>, maxBackups: int, f: Faults, j: int)
    requires Current in d
    ensures var r := Rotate(d, maxBackups, f);
      && (Backup(j) in r <==> Arrives(d, maxBackups, f, j) || Stays(d, maxBackups, f, j))
      && (Backup(j) in r ==> r[Backup(j)] == if Arrives(d, maxBackups, f, j) then d[Source(j)] else d[Backup(j)])
      && (Current in r <==> f.last) && (f.last ==> r[Current] == d[Current])
  {
    var d1 := if f.remove then d else d - {Backup(maxBackups)};
    if maxBackups >= 1 {
      ShiftAt(d1, maxBackups - 1, f.shifts, Backup(j));
      ShiftAt(d1, maxBackups - 1, f.shifts, Current);
    } else {
      NothingToShift(d1, maxBackups - 1, f.shifts);
    }
    hide Shift;
  }

  lemma NothingToShift<T>(d: Dir<T>, i: int, failing: set<int>)
    requires i <= 0
    ensures Shift(d, i, failing) == d
  {
  }

  // ---- one event ----

  /** The event rotates: exactly if the current file has reached the limit and its size can be
      queried. */
  predicate Rotates(d: Dir<seq<Line>>, maxBytes: int, f: Faults) {
    Current in d && !f.size && |Joined(d[Current])| >= maxBytes
  }

  /** The lines that are still in the current file when the event appends. */
  function Remaining(d: Dir<seq<Line>>, maxBytes: int, f: Faults): seq<Line> {
    if Current in d && (Rotates(d, maxBytes, f) ==> f.last) then d[Current] else []
  }

  /** The backups change only if the event rotates. The line is appended to what remains in the
      current file unless the append stores nothing, and then the file is only made, if it can be
      opened at all. */
  lemma EventExactly(d: Dir<seq<Line>>, line: Line, maxBytes: int, maxBackups: int, f: Faults, j: int)
    ensures var r := Logged(d, line, maxBytes, maxBackups, f);
      var rotates, rest := Rotates(d, maxBytes, f), Remaining(d, maxBytes, f);
      && (Backup(j) in r <==>
            if rotates then Arrives(d, maxBackups, f, j) || Stays(d, maxBackups, f, j) else Backup(j) in d)
      && (Backup(j) in r ==>
            r[Backup(j)] == if rotates && Arrives(d, maxBackups, f, j) then d[Source(j)] else d[Backup(j)])
      && (Current in r <==> !f.append.NotOpened? || (Current in d && (rotates ==> f.last)))
      && (Current in r ==>
            r[Current] == if f.append.Written? || f.append.NotForced? then rest + [line] else rest)
  {
    if Rotates(d, maxBytes, f) { RotatesTo(d, maxBackups, f, j); }
    hide Rotate; hide Arrives; hide Stays; hide Joined;
  }

  // ---- whole runs without failures ----

  /** These lines split, in order and without loss, into pieces that end as soon as they have
      reached the limit in bytes. */
  predicate SplitInto(h: seq<Line>, p: seq<seq<Line>>, maxBytes: int) {
    && Concat(p) == h
    && forall i | 0 <= i < |p| ::
         && p[i] != []
         && (i < |p| - 1 ==> |Joined(p[i])| >= maxBytes)
         && (|p[i]| > 1 ==> |Joined(p[i])| - |p[i][|p[i]| - 1]| < maxBytes)
  }

  /** The current file is the last piece and backup `.j` the j-th before it, up to `max_backups`
      of them but at least one, and there are no other files. */
  ghost predicate HoldsLast(d: Dir<seq<Line>>, p: seq<seq<Line>>, maxBackups: int) {
    && (Current in d <==> p != [])
    && (p != [] ==> d[Current] == p[|p| - 1])
    && (forall j :: Backup(j) in d <==> 1 <= j < |p| && (j == 1 || j <= maxBackups))
    && (forall j | Backup(j) in d && j <= |p| - 1 :: d[Backup(j)] == p[|p| - 1 - j])
  }

  lemma GreedySplits(p: seq<seq<Line>>, maxBytes: int)
    requires Greedy(p, maxBytes)
    ensures SplitInto(Concat(p), p, maxBytes)
  {
    forall i | 0 <= i < |p|
      ensures p[i] != [] && (|p[i]| > 1 ==> |Joined(p[i])| - |p[i][|p[i]| - 1]| < maxBytes)
    {
      assert Grown(p[i], maxBytes);
    }
    hide Concat;
  }

  lemma LayoutHoldsLast(p: seq<seq<Line>>, maxBackups: int)
    ensures HoldsLast(Layout(p, Kept(maxBackups)), p, maxBackups)
  {
    var kept := Kept(maxBackups);
    LayoutAt(p, kept, Current);
    forall j
      ensures Backup(j) in Layout(p, kept) <==> 1 <= j < |p| && (j == 1 || j <= maxBackups)
      ensures Backup(j) in Layout(p, kept) ==> Layout(p, kept)[Backup(j)] == p[|p| - 1 - j]
    {
      LayoutAt(p, kept, Backup(j));
    }
    hide Layout;
  }

  /** Every run without failures holds the last pieces of such a split of what was written. */
  lemma CleanRunFiles(events: seq<Event>, maxBytes: int, maxBackups: int)
    requires Clean(events)
    ensures exists p ::
      SplitInto(Written(events), p, maxBytes) && HoldsLast(RunLog(events, maxBytes, maxBackups), p, maxBackups)
  {
    WrittenAreLines(events);
    var p := Pieces(Lines(events), maxBytes);
    hide *;
    CleanRunIsGreedy(events, maxBytes, maxBackups);
    PiecesAreGreedy(Lines(events), maxBytes);
    GreedySplits(p, maxBytes);
    LayoutHoldsLast(p, maxBackups);
  }

  /** The lines of the events, in order. */
  function Written(events: seq<Event>): seq<Line> {
    seq(|events|, k requires 0 <= k < |events| => events[k].line)
  }

  lemma {:induction false} WrittenAreLines(events: seq<Event>)
    requires Clean(events)
    ensures Lines(events) == Written(events)
  {
    if events != [] {
      var front := events[..|events| - 1];
      WrittenAreLines(front);
      assert Written(events) == Written(front) + [events[|events| - 1].line];
    }
  }
}
