/**
Kernel pushes and monitor runs on one shared buffer. A session alternates a batch of pushes with
one run of the monitor. The two sides wrap at different places (131072 records against 12000) and
the buffer starts as zeros rather than as -1; the results below say exactly what is printed.
*/
module Pipeline {
  import opened Words
  import opened Ring
  import opened Monitor
  import opened SampleWindow

  // ---------------------------------------------------------------- draining a run of records

  function Clear(buf: seq<Long>, lo: nat, hi: nat): (r: seq<Long>)
    ensures |r| == |buf|
    ensures forall c :: 0 <= c < |buf| ==> r[c] == if lo <= c < hi then EMPTY else buf[c]
  {
    seq(|buf|, c requires 0 <= c < |buf| => if lo <= c < hi then EMPTY else buf[c])
  }

  /** The records j, ..., end - 1. */
  function Slots(buf: seq<Long>, j: nat, end: nat): (r: seq<Record>)
    requires j <= end && 4 * end <= |buf|
    ensures |r| == end - j && forall k :: 0 <= k < end - j ==> r[k] == Slot(buf, j + k)
  {
    seq(end - j, k requires 0 <= k < end - j => Slot(buf, j + k))
  }

  /** Where the monitor's index stands in front of record j. */
  function Pos(j: nat): nat {
    if j == WINDOW then 0 else 4 * j
  }

  lemma AlignedRound(buf: seq<Long>, j: nat)
    requires |buf| > BUFD_MAX && j < WINDOW
    ensures Take(buf, 4 * j) == Slot(buf, j) && After(4 * j) == Pos(j + 1)
    ensures Wipe(buf, 4 * j) == Clear(buf, 4 * j, 4 * (j + 1))
  {
  }

  lemma ClearOn(buf: seq<Long>, a: nat, b: nat, c: nat)
    requires a <= b <= c
    ensures Clear(Clear(buf, a, b), b, c) == Clear(buf, a, c)
  {
  }

  lemma SlotsCons(buf: seq<Long>, rest: seq<Long>, j: nat, end: nat)
    requires j < end && 4 * end <= |buf| == |rest|
    requires forall c :: 4 * (j + 1) <= c < |buf| ==> rest[c] == buf[c]
    ensures Slots(buf, j, end) == [Slot(buf, j)] + Slots(rest, j + 1, end)
  {
    var a, b := Slots(buf, j, end), Slots(rest, j + 1, end);
    forall k | 0 <= k < |b| ensures b[k] == a[k + 1] {
      assert b[k] == Slot(rest, j + 1 + k) == Slot(buf, j + 1 + k);
    }
  }

  lemma DrainStep(buf: seq<Long>, j: nat, rest: seq<Long>)
    requires |buf| > BUFD_MAX && j < WINDOW && buf[4 * j] != EMPTY
    requires rest == Clear(buf, 4 * j, 4 * (j + 1))
    ensures var d := Drain(rest, Pos(j + 1)); Drain(buf, Pos(j)) == (d.0, [Slot(buf, j)] + d.1)
  {
    AlignedRound(buf, j);
  }

  /** The records j, ..., end - 1 are live, and once they are wiped the monitor stops behind them. */
  ghost predicate RunAt(buf: seq<Long>, j: nat, end: nat) {
    && |buf| > BUFD_MAX && j <= end <= WINDOW
    && (forall k :: j <= k < end ==> buf[4 * k] != EMPTY)
    && Clear(buf, 4 * j, 4 * end)[Pos(end)] == EMPTY
  }

  lemma RunAtRest(buf: seq<Long>, j: nat, end: nat)
    requires RunAt(buf, j, end) && j < end
    ensures RunAt(Clear(buf, 4 * j, 4 * (j + 1)), j + 1, end)
  {
    ClearOn(buf, 4 * j, 4 * (j + 1), 4 * end);
  }

  lemma DrainNothing(buf: seq<Long>, j: nat)
    requires RunAt(buf, j, j)
    ensures Drain(buf, Pos(j)) == (Clear(buf, 4 * j, 4 * j), Slots(buf, j, j))
  {
    assert Clear(buf, 4 * j, 4 * j) == buf;
  }

  lemma DrainCons(buf: seq<Long>, rest: seq<Long>, j: nat, end: nat)
    requires RunAt(buf, j, end) && j < end && rest == Clear(buf, 4 * j, 4 * (j + 1))
    requires Drain(rest, Pos(j + 1)) == (Clear(rest, 4 * (j + 1), 4 * end), Slots(rest, j + 1, end))
    ensures Drain(buf, Pos(j)) == (Clear(buf, 4 * j, 4 * end), Slots(buf, j, end))
  {
    DrainStep(buf, j, rest);
    ClearOn(buf, 4 * j, 4 * (j + 1), 4 * end);
    SlotsCons(buf, rest, j, end);
  }

  /** From an aligned position the monitor prints the live records up to `end` and stops there. */
  lemma {:induction false} DrainRun(buf: seq<Long>, j: nat, end: nat)
    requires RunAt(buf, j, end)
    ensures Drain(buf, Pos(j)) == (Clear(buf, 4 * j, 4 * end), Slots(buf, j, end))
    decreases end - j
  {
    if j == end {
      DrainNothing(buf, j);
    } else {
      var rest := Clear(buf, 4 * j, 4 * (j + 1));
      RunAtRest(buf, j, end);
      DrainRun(rest, j + 1, end);
      DrainCons(buf, rest, j, end);
    }
  }

  lemma ScanFinds(buf: seq<Long>, c: nat)
    requires |buf| > BUFD_MAX > c && buf[c] != EMPTY
    requires forall d :: 0 <= d < c ==> buf[d] == EMPTY
    ensures Scan(buf, 0) == c
  {
  }

  // ---------------------------------------------------------------- buffer and window

  const BLANK := Record(EMPTY, EMPTY, EMPTY, EMPTY)

  /** A free slot is four empty cells; a held one is a record whose pid is not the marker. */
  ghost predicate SlotShows(rec: Record, slot: Option<Record>) {
    match slot
    case None => rec == BLANK
    case Some(held) => rec == held && held.pid != EMPTY
  }

  ghost predicate Shows(r: Ring, w: Window) {
    && WellFormed(r) && |w.slots| == WINDOW && w.idx == r.idx
    && Slot(r.buf, WINDOW).pid == w.cell
    && forall j :: 0 <= j < WINDOW ==> SlotShows(Slot(r.buf, j), w.slots[j])
  }

  lemma FreshShows()
    ensures Shows(Fresh(), FreshWindow())
  {
  }

  lemma PushShows(r: Ring, w: Window, rec: Record)
    requires Shows(r, w) && rec.pid != EMPTY
    ensures Shows(Push(r, rec), Enter(w, rec))
  {
    forall j | 0 <= j < WINDOW ensures SlotShows(Slot(Push(r, rec).buf, j), Enter(w, rec).slots[j]) {
      SlotAfterPush(r, rec, j);
    }
    SlotAfterPush(r, rec, WINDOW);
  }

  lemma {:induction false} BatchShows(r: Ring, w: Window, batch: seq<Record>)
    requires Shows(r, w) && Marked(batch)
    ensures Shows(PushAll(r, batch), EnterAll(w, batch))
  {
    if batch != [] {
      var n := |batch| - 1;
      BatchShows(r, w, batch[..n]);
      PushShows(PushAll(r, batch[..n]), EnterAll(w, batch[..n]), batch[n]);
    }
  }

  /** A cell below 48000 belongs to the slot it lies in. */
  lemma CellOfSlot(r: Ring, w: Window, c: nat)
    requires Shows(r, w) && c < BUFD_MAX
    ensures w.slots[c / 4].None? ==> r.buf[c] == EMPTY
    ensures w.slots[c / 4].Some? && c % 4 == 0 ==> r.buf[c] != EMPTY
  {
    var j := c / 4;
    assert SlotShows(Slot(r.buf, j), w.slots[j]);
    assert c == 4 * j || c == 4 * j + 1 || c == 4 * j + 2 || c == 4 * j + 3;
  }

  /** The scan stops at the first held slot. */
  lemma ScanShows(r: Ring, w: Window)
    requires Shows(r, w)
    ensures Scan(r.buf, 0) == 4 * FirstHeld(w.slots, 0)
  {
    var f := FirstHeld(w.slots, 0);
    forall c | 0 <= c < 4 * f ensures r.buf[c] == EMPTY {
      CellOfSlot(r, w, c);
    }
    if f < WINDOW {
      CellOfSlot(r, w, 4 * f);
      ScanFinds(r.buf, 4 * f);
    } else {
      ScanFindsNothing(r.buf);
    }
  }

  lemma ScanFindsNothing(buf: seq<Long>)
    requires |buf| > BUFD_MAX
    requires forall c :: 0 <= c < BUFD_MAX ==> buf[c] == EMPTY
    ensures Scan(buf, 0) == BUFD_MAX
  {
  }

  /** The drain loop stops behind the first unbroken run of held slots. */
  lemma RunShows(r: Ring, w: Window)
    requires Shows(r, w) && FirstHeld(w.slots, 0) < WINDOW
    ensures var f := FirstHeld(w.slots, 0); RunAt(r.buf, f, FirstFree(w.slots, f))
  {
    var f := FirstHeld(w.slots, 0);
    var e := FirstFree(w.slots, f);
    forall k | f <= k < e ensures r.buf[4 * k] != EMPTY {
      CellOfSlot(r, w, 4 * k);
    }
    CellOfSlot(r, w, Pos(e));
  }

  lemma ValuesShow(r: Ring, w: Window, f: nat, e: nat)
    requires Shows(r, w) && f <= e <= WINDOW && forall k :: f <= k < e ==> w.slots[k].Some?
    ensures Slots(r.buf, f, e) == Values(w.slots, f, e)
  {
    var a, b := Slots(r.buf, f, e), Values(w.slots, f, e);
    forall k | 0 <= k < e - f ensures a[k] == b[k] {
      assert SlotShows(Slot(r.buf, f + k), w.slots[f + k]);
    }
  }

  lemma ClearShows(r: Ring, w: Window, f: nat, e: nat)
    requires Shows(r, w) && f <= e <= WINDOW
    ensures Shows(Ring(Clear(r.buf, 4 * f, 4 * e), r.idx), w.(slots := Freed(w.slots, f, e)))
  {
    var buf, slots := Clear(r.buf, 4 * f, 4 * e), Freed(w.slots, f, e);
    forall j | 0 <= j < WINDOW ensures SlotShows(Slot(buf, j), slots[j]) {
      assert SlotShows(Slot(r.buf, j), w.slots[j]);
    }
  }

  /** With nothing held the drain reads cell 48000 and the three wiped cells behind the wrap. */
  lemma StrayShows(r: Ring, w: Window)
    requires Shows(r, w) && FirstHeld(w.slots, 0) == WINDOW
    ensures Drain(r.buf, BUFD_MAX) == (r.buf[BUFD_MAX := EMPTY], StrayOutput(w.cell))
  {
    forall c | 0 <= c < 4 ensures r.buf[c] == EMPTY {
      CellOfSlot(r, w, c);
    }
    StrayDrain(r.buf);
  }

  lemma StrayDrain(buf: seq<Long>)
    requires |buf| > BUFD_MAX && buf[0] == buf[1] == buf[2] == buf[3] == EMPTY
    ensures Drain(buf, BUFD_MAX) == (buf[BUFD_MAX := EMPTY], StrayOutput(buf[BUFD_MAX]))
  {
    if buf[BUFD_MAX] == EMPTY {
      assert buf[BUFD_MAX := EMPTY] == buf;
    } else {
      var wiped := Wipe(buf, BUFD_MAX);
      assert wiped == buf[BUFD_MAX := EMPTY] && After(BUFD_MAX) == 3;
      assert Take(buf, BUFD_MAX) == Record(buf[BUFD_MAX], EMPTY, EMPTY, EMPTY);
      assert Drain(wiped, 3) == (wiped, []);
      var printed := [Take(buf, BUFD_MAX)] + Drain(wiped, 3).1;
      assert Drain(buf, BUFD_MAX) == (wiped, printed);
      assert printed == StrayOutput(buf[BUFD_MAX]);
    }
  }

  lemma WipedCellShows(r: Ring, w: Window)
    requires Shows(r, w)
    ensures Shows(Ring(r.buf[BUFD_MAX := EMPTY], r.idx), w.(cell := EMPTY))
  {
    var buf := r.buf[BUFD_MAX := EMPTY];
    forall j | 0 <= j < WINDOW ensures Slot(buf, j) == Slot(r.buf, j) {
    }
  }

  /** A monitor run on the buffer is a run on the window it shows. */
  lemma MonitorShows(r: Ring, w: Window)
    requires Shows(r, w)
    ensures Monitored(r.buf).1 == Leave(w).1
    ensures Shows(Ring(Monitored(r.buf).0, r.idx), Leave(w).0)
  {
    var f := FirstHeld(w.slots, 0);
    var e := FirstFree(w.slots, f);
    ScanShows(r, w);
    if f < WINDOW {
      RunShows(r, w);
      DrainRun(r.buf, f, e);
      ValuesShow(r, w, f, e);
      ClearShows(r, w, f, e);
    } else {
      StrayShows(r, w);
      WipedCellShows(r, w);
    }
  }

  // ---------------------------------------------------------------- sessions

  /** One batch of pushes and the monitor run behind it. */
  ghost function RingRound(r: Ring, batch: seq<Record>): (Ring, seq<Record>) {
    if WellFormed(r) then
      var pushed := PushAll(r, batch);
      (Ring(Monitored(pushed.buf).0, pushed.idx), Monitored(pushed.buf).1)
    else (r, [])
  }

  ghost function Session(batches: seq<seq<Record>>): seq<seq<Record>> {
    Outputs(RingRound, Fresh(), batches)
  }

  lemma RoundShows(r: Ring, w: Window, batch: seq<Record>)
    requires Shows(r, w) && Marked(batch)
    ensures RingRound(r, batch).1 == WindowRound(w, batch).1
    ensures Shows(RingRound(r, batch).0, WindowRound(w, batch).0)
  {
    BatchShows(r, w, batch);
    MonitorShows(PushAll(r, batch), EnterAll(w, batch));
  }

  /**
  Refinement. Over any session on a fresh buffer, of any length and past any number of wraps, the
  monitor prints exactly what the window machine prints: each run the first unbroken stretch of the
  newest samples in the window, and the cell behind the window when there is none.
  */
  lemma SessionRefines(batches: seq<seq<Record>>)
    requires AllMarked(batches)
    ensures Session(batches) == Outputs(WindowRound, FreshWindow(), batches)
  {
    forall r, w, batch | Shows(r, w) && Marked(batch)
      ensures RingRound(r, batch).1 == WindowRound(w, batch).1
      ensures Shows(RingRound(r, batch).0, WindowRound(w, batch).0)
    {
      RoundShows(r, w, batch);
    }
    FreshShows();
    Simulates(RingRound, WindowRound, Shows, Fresh(), FreshWindow(), batches);
  }

  /**
  In closed form, past any number of wraps: the first drain prints its batch in push order, padded with
  zero records to 12000 or cut off there; every later drain prints, in push order, the samples of the
  batch since the one before whose number modulo 131072 is below 12000; a drain that finds none prints
  the cell behind the window as a broken record if it is live, and nothing otherwise. The condition is
  on the batch sizes: none comes back to the window once it has left it.
  */
  lemma SessionPrints(batches: seq<seq<Record>>)
    requires Paced(batches) && AllMarked(batches)
    ensures Session(batches) == Output(batches)
  {
    SessionRefines(batches);
    FreshSession(batches);
  }

  /** It covers batches of at most 119072 samples in sessions of any length, and any session before the wrap. */
  lemma PacedSessions(batches: seq<seq<Record>>)
    requires AllMarked(batches)
    requires (forall b <- batches :: |b| <= RECORDS - WINDOW) || Total(batches) < RECORDS
    ensures Session(batches) == Output(batches)
  {
    if Total(batches) < RECORDS {
      UnwrappedPaced(batches, 0);
    } else {
      SmallBatchesPaced(batches, 0);
    }
    SessionPrints(batches);
  }

  /**
  The exact bound: a session of any length prints every sample exactly once, in push order and by
  the drain that follows it, and besides only the zeros the buffer began with, if and only if it pushes
  at most 12000.
  */
  lemma CompleteExactly(batches: seq<seq<Record>>)
    requires AllMarked(batches) && forall b :: b in batches ==> NoEmptyMinor(b)
    ensures Complete(batches, Session(batches)) <==> Total(batches) <= WINDOW
  {
    SessionRefines(batches);
    CompleteIff(batches);
  }

  /** Counted: within the bound every record of a process is printed as often as it was pushed. */
  lemma PrintedAsOften(batches: seq<seq<Record>>, rec: Record)
    requires AllMarked(batches) && (forall b :: b in batches ==> NoEmptyMinor(b))
    requires Total(batches) <= WINDOW && rec.pid != 0
    ensures Copies(Session(batches), rec) == Copies(batches, rec)
  {
    CompleteExactly(batches);
    CompleteCopies(batches, Session(batches), rec);
  }
}
