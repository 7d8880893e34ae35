/**
What the monitor can see, as a machine of its own: 12000 slots that hold a record or nothing, the
one cell behind them, and the kernel's write index. It says nothing about cells, markers or wrapping
loops; module Pipeline proves that kernel and monitor behave like it, round by round.
*/
module SampleWindow {
  import opened Words
  import opened Ring
  import opened Monitor

  const WINDOW := 12000                         // records below BUFD_MAX

  datatype Window = Window(slots: seq<Option<Record>>, cell: Long, idx: nat)

  // ---------------------------------------------------------------- the machine

  /** A pushed record is seen if it falls into the window; the one just behind it shows its pid. */
  function Enter(w: Window, rec: Record): Window {
    Window(if w.idx < |w.slots| then w.slots[w.idx := Some(rec)] else w.slots,
           if w.idx == |w.slots| then rec.pid else w.cell,
           if w.idx + 1 >= RECORDS then 0 else w.idx + 1)
  }

  function EnterAll(w: Window, recs: seq<Record>): (w': Window)
    ensures |w'.slots| == |w.slots|
  {
    if recs == [] then w else Enter(EnterAll(w, recs[..|recs| - 1]), recs[|recs| - 1])
  }

  function FirstHeld(slots: seq<Option<Record>>, i: nat): (r: nat)
    requires i <= |slots|
    ensures i <= r <= |slots|
    ensures forall k :: i <= k < r ==> slots[k].None?
    ensures r < |slots| ==> slots[r].Some?
    decreases |slots| - i
  {
    if i == |slots| || slots[i].Some? then i else FirstHeld(slots, i + 1)
  }

  function FirstFree(slots: seq<Option<Record>>, i: nat): (r: nat)
    requires i <= |slots|
    ensures i <= r <= |slots|
    ensures forall k :: i <= k < r ==> slots[k].Some?
    ensures r < |slots| ==> slots[r].None?
    decreases |slots| - i
  {
    if i == |slots| || slots[i].None? then i else FirstFree(slots, i + 1)
  }

  function Values(slots: seq<Option<Record>>, f: nat, e: nat): (r: seq<Record>)
    requires f <= e <= |slots| && forall k :: f <= k < e ==> slots[k].Some?
    ensures |r| == e - f && forall k :: 0 <= k < e - f ==> r[k] == slots[f + k].value
  {
    seq(e - f, k requires 0 <= k < e - f => slots[f + k].value)
  }

  function Freed(slots: seq<Option<Record>>, f: nat, e: nat): (r: seq<Option<Record>>)
    ensures |r| == |slots|
    ensures forall k :: 0 <= k < |slots| ==> r[k] == if f <= k < e then None else slots[k]
  {
    seq(|slots|, k requires 0 <= k < |slots| => if f <= k < e then None else slots[k])
  }

  /** What a drain prints when no slot is held: the cell behind the window, if live, as a broken record. */
  function StrayOutput(cell: Long): seq<Record> {
    if cell == EMPTY then [] else [Record(cell, EMPTY, EMPTY, EMPTY)]
  }

  /** A monitor run prints and frees the first unbroken run of held slots. */
  function Leave(w: Window): (Window, seq<Record>) {
    var f := FirstHeld(w.slots, 0);
    var e := FirstFree(w.slots, f);
    if f == |w.slots| then (w.(cell := EMPTY), StrayOutput(w.cell))
    else (w.(slots := Freed(w.slots, f, e)), Values(w.slots, f, e))
  }

  /** One batch of pushes and the monitor run behind it. */
  function WindowRound(w: Window, batch: seq<Record>): (Window, seq<Record>) {
    Leave(EnterAll(w, batch))
  }

  /** A buffer of zeros: 12000 zero records. */
  function FreshWindow(): (w: Window)
    ensures |w.slots| == WINDOW && w.idx == 0 && w.cell == 0
    ensures forall k :: 0 <= k < WINDOW ==> w.slots[k] == Some(ZERO)
  {
    Window(seq(WINDOW, _ => Some(ZERO)), 0, 0)
  }

  /** A run prints at most what fits the window. */
  lemma LeaveBound(w: Window)
    requires |w.slots| == WINDOW
    ensures |Leave(w).1| <= WINDOW
  {
  }

  // ---------------------------------------------------------------- sessions of rounds

  /** What the rounds of a session print, for any machine with a `round` step. */
  function Outputs<S>(round: (S, seq<Record>) -> (S, seq<Record>), s: S, batches: seq<seq<Record>>): seq<seq<Record>> {
    if batches == [] then []
    else [round(s, batches[0]).1] + Outputs(round, round(s, batches[0]).0, batches[1..])
  }

  ghost predicate Marked(recs: seq<Record>) {
    forall k :: 0 <= k < |recs| ==> recs[k].pid != EMPTY
  }

  ghost predicate AllMarked(batches: seq<seq<Record>>) {
    forall b :: b in batches ==> Marked(b)
  }

  /** Related machines that print the same in each round print the same over any session. */
  lemma {:induction false} Simulates<A(!new), B(!new)>(
    one: (A, seq<Record>) -> (A, seq<Record>), two: (B, seq<Record>) -> (B, seq<Record>),
    related: (A, B) -> bool, a: A, b: B, batches: seq<seq<Record>>)
    requires forall x, y, batch :: related(x, y) && Marked(batch) ==>
               one(x, batch).1 == two(y, batch).1 && related(one(x, batch).0, two(y, batch).0)
    requires related(a, b) && AllMarked(batches)
    ensures Outputs(one, a, batches) == Outputs(two, b, batches)
    decreases |batches|
  {
    if batches != [] {
      Simulates(one, two, related, one(a, batches[0]).0, two(b, batches[0]).0, batches[1..]);
    }
  }

  ghost function Total(batches: seq<seq<Record>>): nat {
    if batches == [] then 0 else |batches[0]| + Total(batches[1..])
  }

  // ---------------------------------------------------------------- closed form

  /** Sample number n falls into the window. */
  predicate InWindow(n: nat) {
    n % RECORDS < WINDOW
  }

  /** The records of a batch, pushed after `pushed` samples, that fall into the window, in push order. */
  function Seen(pushed: nat, batch: seq<Record>): (r: seq<Record>)
    ensures |r| <= |batch|
  {
    if batch == [] then []
    else
      var n := |batch| - 1;
      Seen(pushed, batch[..n]) + if InWindow(pushed + n) then [batch[n]] else []
  }

  /** The cell behind the window after a batch: the pid of the last sample that fell on it. */
  function CellAfter(pushed: nat, cell: Long, batch: seq<Record>): Long {
    if batch == [] then cell
    else
      var n := |batch| - 1;
      if (pushed + n) % RECORDS == WINDOW then batch[n].pid else CellAfter(pushed, cell, batch[..n])
  }

  /** One batch and the drain behind it: what is printed, and what is left in the cell. */
  function RoundOutput(pushed: nat, cell: Long, batch: seq<Record>): seq<Record> {
    if Seen(pushed, batch) != [] then Seen(pushed, batch) else StrayOutput(CellAfter(pushed, cell, batch))
  }

  function RoundCell(pushed: nat, cell: Long, batch: seq<Record>): Long {
    if Seen(pushed, batch) != [] then CellAfter(pushed, cell, batch) else EMPTY
  }

  /** Drains after the first, with `pushed` samples so far and `cell` behind the window. */
  function LaterOutput(batches: seq<seq<Record>>, pushed: nat, cell: Long): seq<seq<Record>>
    decreases |batches|
  {
    if batches == [] then []
    else
      var b := batches[0];
      [RoundOutput(pushed, cell, b)] + LaterOutput(batches[1..], pushed + |b|, RoundCell(pushed, cell, b))
  }

  /** The first drain: the batch, padded with zero records to 12000 (or cut off there). */
  function FirstOutput(batch: seq<Record>): (r: seq<Record>)
    ensures |r| == WINDOW
    ensures forall k :: 0 <= k < WINDOW ==> r[k] == if k < |batch| then batch[k] else ZERO
  {
    seq(WINDOW, k => if 0 <= k < |batch| then batch[k] else ZERO)
  }

  function Output(batches: seq<seq<Record>>): seq<seq<Record>> {
    if batches == [] then []
    else [FirstOutput(batches[0])] + LaterOutput(batches[1..], |batches[0]|, CellAfter(0, 0, batches[0]))
  }

  /** A batch of n records that does not come back to the window once it has left it. */
  predicate OnePass(pushed: nat, n: nat) {
    pushed % RECORDS + n <= if InWindow(pushed) then RECORDS else 2 * RECORDS
  }

  predicate LaterPaced(batches: seq<seq<Record>>, pushed: nat)
    decreases |batches|
  {
    batches == [] || (OnePass(pushed, |batches[0]|) && LaterPaced(batches[1..], pushed + |batches[0]|))
  }

  /** The monitor runs often enough: no batch meets the window twice. */
  predicate Paced(batches: seq<seq<Record>>) {
    batches == [] || (|batches[0]| <= RECORDS && LaterPaced(batches[1..], |batches[0]|))
  }

  /** So it is if no batch exceeds what the ring holds outside the window. */
  lemma {:induction false} SmallBatchesPaced(batches: seq<seq<Record>>, pushed: nat)
    requires forall b <- batches :: |b| <= RECORDS - WINDOW
    ensures LaterPaced(batches, pushed) && Paced(batches)
    decreases |batches|
  {
    if batches != [] {
      SmallBatchesPaced(batches[1..], pushed + |batches[0]|);
      SmallBatchesPaced(batches[1..], |batches[0]|);
    }
  }

  /** And if the ring does not wrap at all. */
  lemma {:induction false} UnwrappedPaced(batches: seq<seq<Record>>, pushed: nat)
    requires pushed + Total(batches) < RECORDS
    ensures LaterPaced(batches, pushed) && (pushed == 0 ==> Paced(batches))
    decreases |batches|
  {
    if batches != [] {
      UnwrappedPaced(batches[1..], pushed + |batches[0]|);
    }
  }

  /** Between drains: no slot held, and `cell` behind the window. */
  ghost predicate Blank(w: Window, pushed: nat, cell: Long) {
    && |w.slots| == WINDOW && w.idx == pushed % RECORDS && w.cell == cell
    && forall k :: 0 <= k < WINDOW ==> w.slots[k].None?
  }

  /** Where a batch that enters at index i begins in the window, and where it ends after n records. */
  function Front(i: nat): nat {
    if i < WINDOW then i else 0
  }

  function Back(i: nat, n: nat): nat {
    if i < WINDOW then if i + n < WINDOW then i + n else WINDOW
    else if i + n < RECORDS then 0
    else if i + n < RECORDS + WINDOW then i + n - RECORDS
    else WINDOW
  }

  /** The slots held are exactly those from f on, by the records `recs`. */
  ghost predicate Holds(w: Window, f: nat, recs: seq<Record>) {
    && |w.slots| == WINDOW && f + |recs| <= WINDOW
    && forall j :: 0 <= j < WINDOW ==>
         w.slots[j] == if f <= j < f + |recs| then Some(recs[j - f]) else None
  }

  lemma EntersAt(pushed: nat, n: nat)
    requires OnePass(pushed, n + 1)
    ensures var i := pushed % RECORDS;
            && (pushed + n) % RECORDS == (if i + n < RECORDS then i + n else i + n - RECORDS)
            && (InWindow(pushed + n) ==>
                  (pushed + n) % RECORDS == Back(i, n) < WINDOW && Back(i, n + 1) == Back(i, n) + 1)
            && (!InWindow(pushed + n) ==> Back(i, n + 1) == Back(i, n))
  {
    var i := pushed % RECORDS;
    assert (pushed + n) % RECORDS == (i + n) % RECORDS;
  }

  lemma NextNumber(n: nat)
    ensures (n + 1) % RECORDS == if n % RECORDS + 1 >= RECORDS then 0 else n % RECORDS + 1
  {
  }

  /** One pass lays what it has of the window side by side. */
  lemma {:induction false} EnterOnce(w: Window, pushed: nat, cell: Long, batch: seq<Record>)
    requires Blank(w, pushed, cell) && OnePass(pushed, |batch|)
    ensures var w', i := EnterAll(w, batch), pushed % RECORDS;
            && w'.idx == (pushed + |batch|) % RECORDS
            && w'.cell == CellAfter(pushed, cell, batch)
            && |Seen(pushed, batch)| == Back(i, |batch|) - Front(i)
            && Holds(w', Front(i), Seen(pushed, batch))
  {
    if batch != [] {
      var n := |batch| - 1;
      EnterOnce(w, pushed, cell, batch[..n]);
      EntersAt(pushed, n);
      NextNumber(pushed + n);
    }
  }

  lemma LeaveRun(w: Window, f: nat, recs: seq<Record>)
    requires Holds(w, f, recs) && recs != []
    ensures Leave(w).1 == recs
    ensures Leave(w).0.idx == w.idx && Leave(w).0.cell == w.cell
    ensures |Leave(w).0.slots| == WINDOW && forall k :: 0 <= k < WINDOW ==> Leave(w).0.slots[k].None?
  {
    var e := f + |recs|;
    var first := FirstHeld(w.slots, 0);
    assert w.slots[f].Some? && first == f;
    var free := FirstFree(w.slots, f);
    assert e < WINDOW ==> w.slots[e].None?;
    assert free < WINDOW ==> w.slots[free].None?;
    assert free == e;
    assert Values(w.slots, f, e) == recs;
  }

  lemma LeaveNothing(w: Window, pushed: nat, cell: Long)
    requires Blank(w, pushed, cell)
    ensures Leave(w).1 == StrayOutput(cell) && Blank(Leave(w).0, pushed, EMPTY)
  {
    assert FirstHeld(w.slots, 0) == WINDOW;
  }

  lemma BlankRound(w: Window, pushed: nat, cell: Long, batch: seq<Record>)
    requires Blank(w, pushed, cell) && OnePass(pushed, |batch|)
    ensures WindowRound(w, batch).1 == RoundOutput(pushed, cell, batch)
    ensures Blank(WindowRound(w, batch).0, pushed + |batch|, RoundCell(pushed, cell, batch))
  {
    EnterOnce(w, pushed, cell, batch);
    var w', seen := EnterAll(w, batch), Seen(pushed, batch);
    if seen != [] {
      LeaveRun(w', Front(pushed % RECORDS), seen);
    } else {
      LeaveNothing(w', pushed + |batch|, CellAfter(pushed, cell, batch));
    }
  }

  // ---------------------------------------------------------------- where the form ends

  lemma {:induction false} SeenAppend(pushed: nat, a: seq<Record>, b: seq<Record>)
    ensures Seen(pushed, a + b) == Seen(pushed, a) + Seen(pushed + |a|, b)
  {
    if b == [] {
      assert a + b == a;
    } else {
      var n := |b| - 1;
      SeenAppend(pushed, a, b[..n]);
      assert (a + b)[..|a| + n] == a + b[..n];
    }
  }

  lemma {:induction false} SeenLength(pushed: nat, batch: seq<Record>)
    requires OnePass(pushed, |batch|)
    ensures |Seen(pushed, batch)| == Back(pushed % RECORDS, |batch|) - Front(pushed % RECORDS)
  {
    if batch != [] {
      var n := |batch| - 1;
      SeenLength(pushed, batch[..n]);
      EntersAt(pushed, n);
    }
  }

  lemma SeenPrefix(pushed: nat, batch: seq<Record>, n: nat)
    requires n <= |batch|
    ensures |Seen(pushed, batch)| == |Seen(pushed, batch[..n])| + |Seen(pushed + n, batch[n..])|
  {
    SeenAppend(pushed, batch[..n], batch[n..]);
    assert batch[..n] + batch[n..] == batch;
  }

  /** Back at the ring's start, a batch is in the window until it is through with it. */
  lemma SeenFromStart(pushed: nat, batch: seq<Record>)
    requires pushed % RECORDS == 0
    ensures |Seen(pushed, batch)| >= if |batch| <= WINDOW then |batch| else WINDOW
  {
    var n := if |batch| <= RECORDS then |batch| else RECORDS;
    SeenPrefix(pushed, batch, n);
    SeenLength(pushed, batch[..n]);
  }

  /** A batch that comes back to the window sees what it had seen before and what it sees again. */
  lemma SeenTwice(pushed: nat, batch: seq<Record>)
    requires !OnePass(pushed, |batch|)
    ensures var i, n := pushed % RECORDS, |batch|;
            if i < WINDOW then
              |Seen(pushed, batch)| >= WINDOW - i + (if i + n - RECORDS <= WINDOW then i + n - RECORDS else WINDOW)
            else |Seen(pushed, batch)| > WINDOW
  {
    var i := pushed % RECORDS;
    var n := if i < WINDOW then RECORDS - i else 2 * RECORDS - i;
    SeenPrefix(pushed, batch, n);
    SeenLength(pushed, batch[..n]);
    BackAtStart(pushed, n);
    SeenFromStart(pushed + n, batch[n..]);
  }

  lemma BackAtStart(pushed: nat, n: nat)
    requires pushed % RECORDS + n == RECORDS || pushed % RECORDS + n == 2 * RECORDS
    ensures (pushed + n) % RECORDS == 0
  {
  }

  lemma NotYet(pushed: nat, n: nat, j: nat)
    requires j < pushed % RECORDS && pushed % RECORDS + n < RECORDS + j
    ensures (pushed + n) % RECORDS != j
  {
    var i := pushed % RECORDS;
    assert (pushed + n) % RECORDS == (i + n) % RECORDS;
  }

  /** In front of where it began, a batch leaves the slots free that it has not come back to. */
  lemma {:induction false} GapLeft(w: Window, pushed: nat, cell: Long, batch: seq<Record>, j: nat)
    requires Blank(w, pushed, cell) && j < WINDOW
    requires j < pushed % RECORDS && pushed % RECORDS + |batch| <= RECORDS + j
    ensures EnterAll(w, batch).idx == (pushed + |batch|) % RECORDS
    ensures EnterAll(w, batch).slots[j].None?
  {
    if batch != [] {
      var n := |batch| - 1;
      GapLeft(w, pushed, cell, batch[..n], j);
      NotYet(pushed, n, j);
      NextNumber(pushed + n);
    }
  }

  /** So the drain stops in front of the gap, or starts behind it. */
  lemma GapSplits(w: Window, lo: nat, hi: nat)
    requires |w.slots| == WINDOW && lo < hi < WINDOW && forall j :: lo <= j < hi ==> w.slots[j].None?
    ensures |Leave(w).1| <= lo || |Leave(w).1| <= WINDOW - hi
  {
    var f := FirstHeld(w.slots, 0);
    var e := FirstFree(w.slots, f);
    if f < WINDOW {
      assert f < lo || f >= hi;
      assert f < lo ==> e <= lo by {
        assert w.slots[lo].None?;
      }
    }
  }

  /** A batch that comes back to the window is not printed in full. */
  lemma TwoPassesCut(w: Window, pushed: nat, cell: Long, batch: seq<Record>)
    requires Blank(w, pushed, cell) && !OnePass(pushed, |batch|) && |batch| != RECORDS
    ensures |WindowRound(w, batch).1| < |Seen(pushed, batch)|
  {
    var i, n := pushed % RECORDS, |batch|;
    var w' := EnterAll(w, batch);
    SeenTwice(pushed, batch);
    LeaveBound(w');
    if i < WINDOW && n < RECORDS {
      forall j | i + n - RECORDS <= j < i ensures w'.slots[j].None? {
        GapLeft(w, pushed, cell, batch, j);
      }
      GapSplits(w', i + n - RECORDS, i);
    }
  }

  /**
  Where the closed form ends: from a blank window a batch, of any size but a whole ring, is printed as
  far as it is seen if and only if it does not come back to the window once it has left it.
  */
  lemma OnePassExactly(w: Window, pushed: nat, cell: Long, batch: seq<Record>)
    requires Blank(w, pushed, cell) && |batch| != RECORDS
    ensures WindowRound(w, batch).1 == RoundOutput(pushed, cell, batch) <==> OnePass(pushed, |batch|)
  {
    if OnePass(pushed, |batch|) {
      BlankRound(w, pushed, cell, batch);
    } else {
      TwoPassesCut(w, pushed, cell, batch);
    }
  }

  // ---------------------------------------------------------------- sessions on a fresh buffer

  /** On a buffer of zeros every slot stays held. */
  lemma {:induction false} EnterFresh(batch: seq<Record>)
    requires |batch| <= RECORDS
    ensures var w' := EnterAll(FreshWindow(), batch);
            && w'.idx == |batch| % RECORDS
            && w'.cell == CellAfter(0, 0, batch)
            && Holds(w', 0, FirstOutput(batch))
  {
    if batch != [] {
      EnterFresh(batch[..|batch| - 1]);
    }
  }

  lemma FreshRound(batch: seq<Record>)
    requires |batch| <= RECORDS
    ensures WindowRound(FreshWindow(), batch).1 == FirstOutput(batch)
    ensures Blank(WindowRound(FreshWindow(), batch).0, |batch|, CellAfter(0, 0, batch))
  {
    EnterFresh(batch);
    LeaveRun(EnterAll(FreshWindow(), batch), 0, FirstOutput(batch));
  }

  lemma {:induction false} BlankSession(w: Window, pushed: nat, cell: Long, batches: seq<seq<Record>>)
    requires Blank(w, pushed, cell) && LaterPaced(batches, pushed)
    ensures Outputs(WindowRound, w, batches) == LaterOutput(batches, pushed, cell)
    decreases |batches|
  {
    if batches != [] {
      var b := batches[0];
      BlankRound(w, pushed, cell, b);
      BlankSession(WindowRound(w, b).0, pushed + |b|, RoundCell(pushed, cell, b), batches[1..]);
    }
  }

  lemma FreshSession(batches: seq<seq<Record>>)
    requires Paced(batches)
    ensures Outputs(WindowRound, FreshWindow(), batches) == Output(batches)
  {
    if batches != [] {
      var b := batches[0];
      FreshRound(b);
      BlankSession(WindowRound(FreshWindow(), b).0, |b|, CellAfter(0, 0, b), batches[1..]);
    }
  }

  // ---------------------------------------------------------------- exactly once

  /** What a drain prints that finds nothing but a zero in the cell behind the window. */
  const BROKEN := Record(0, EMPTY, EMPTY, EMPTY)

  /** Every later batch is printed as it is; behind an empty one at most a broken record is. */
  ghost predicate LaterComplete(batches: seq<seq<Record>>, outputs: seq<seq<Record>>) {
    && |outputs| == |batches|
    && (batches != [] ==>
          && (outputs[0] == batches[0] || (batches[0] == [] && outputs[0] == [BROKEN]))
          && LaterComplete(batches[1..], outputs[1..]))
  }

  /** The batch, and nothing behind it but zero records. */
  ghost predicate Padded(batch: seq<Record>, output: seq<Record>) {
    batch <= output && forall k :: |batch| <= k < |output| ==> output[k] == ZERO
  }

  /** Every sample is printed exactly once, in push order, by the drain that follows it. */
  ghost predicate Complete(batches: seq<seq<Record>>, outputs: seq<seq<Record>>) {
    && |outputs| == |batches|
    && (batches != [] ==> Padded(batches[0], outputs[0]) && LaterComplete(batches[1..], outputs[1..]))
  }

  ghost function Copies(outputs: seq<seq<Record>>, rec: Record): nat {
    if outputs == [] then 0 else multiset(outputs[0])[rec] + Copies(outputs[1..], rec)
  }

  lemma {:induction false} LaterCopies(batches: seq<seq<Record>>, outputs: seq<seq<Record>>, rec: Record)
    requires LaterComplete(batches, outputs) && rec.pid != 0
    ensures Copies(outputs, rec) == Copies(batches, rec)
    decreases |batches|
  {
    if batches != [] {
      LaterCopies(batches[1..], outputs[1..], rec);
    }
  }

  /** So every record of a live process is printed as often as it was pushed. */
  lemma CompleteCopies(batches: seq<seq<Record>>, outputs: seq<seq<Record>>, rec: Record)
    requires Complete(batches, outputs) && rec.pid != 0
    ensures Copies(outputs, rec) == Copies(batches, rec)
  {
    if batches != [] {
      var padding := outputs[0][|batches[0]|..];
      assert outputs[0] == batches[0] + padding;
      assert rec !in padding;
      LaterCopies(batches[1..], outputs[1..], rec);
    }
  }

  ghost predicate NoEmptyMinor(batch: seq<Record>) {
    forall k :: 0 <= k < |batch| ==> batch[k].minor != EMPTY
  }

  lemma SmallNumber(n: nat)
    requires n <= WINDOW
    ensures n % RECORDS == n
  {
  }

  /** Below the window's end all of a batch is seen, and the cell behind it keeps what it has. */
  lemma {:induction false} SeenAll(pushed: nat, cell: Long, batch: seq<Record>)
    requires pushed + |batch| <= WINDOW
    ensures Seen(pushed, batch) == batch && CellAfter(pushed, cell, batch) == cell
  {
    if batch != [] {
      var n := |batch| - 1;
      SmallNumber(pushed + n);
      SeenAll(pushed, cell, batch[..n]);
      assert batch == batch[..n] + [batch[n]];
    }
  }

  lemma StrayIsNoBatch(cell: Long, batch: seq<Record>)
    requires NoEmptyMinor(batch) && batch != []
    ensures StrayOutput(cell) != batch
  {
    if cell != EMPTY {
      assert StrayOutput(cell)[0].minor == EMPTY;
    }
  }

  lemma BackCuts(i: nat, n: nat)
    requires i <= WINDOW < i + n && i + n <= (if i < WINDOW then RECORDS else 2 * RECORDS)
    ensures Back(i, n) - Front(i) < n
  {
  }

  /** A batch that reaches beyond the window, however far, is never printed as it is. */
  lemma CrossingIsCut(w: Window, pushed: nat, cell: Long, batch: seq<Record>)
    requires Blank(w, pushed, cell) && pushed <= WINDOW < pushed + |batch| && NoEmptyMinor(batch)
    ensures WindowRound(w, batch).1 != batch
  {
    SmallNumber(pushed);
    if OnePass(pushed, |batch|) {
      EnterOnce(w, pushed, cell, batch);
      BackCuts(pushed, |batch|);
      BlankRound(w, pushed, cell, batch);
      StrayIsNoBatch(CellAfter(pushed, cell, batch), batch);
    } else {
      LeaveBound(EnterAll(w, batch));
    }
  }

  lemma {:induction false} LaterCompleteIff(w: Window, pushed: nat, cell: Long, batches: seq<seq<Record>>)
    requires Blank(w, pushed, cell) && pushed <= WINDOW && (cell == 0 || cell == EMPTY)
    requires forall b :: b in batches ==> NoEmptyMinor(b)
    ensures LaterComplete(batches, Outputs(WindowRound, w, batches)) <==> pushed + Total(batches) <= WINDOW
    decreases |batches|
  {
    OutputsLength(WindowRound, w, batches);
    if batches != [] {
      var b := batches[0];
      var next, outputs := WindowRound(w, b).0, Outputs(WindowRound, w, batches);
      assert outputs[1..] == Outputs(WindowRound, next, batches[1..]);
      if pushed + |b| <= WINDOW {
        SeenAll(pushed, cell, b);
        BlankRound(w, pushed, cell, b);
        LaterCompleteIff(next, pushed + |b|, RoundCell(pushed, cell, b), batches[1..]);
      } else {
        CrossingIsCut(w, pushed, cell, b);
      }
    }
  }

  lemma {:induction false} OutputsLength<S>(round: (S, seq<Record>) -> (S, seq<Record>), s: S, batches: seq<seq<Record>>)
    ensures |Outputs(round, s, batches)| == |batches|
    decreases |batches|
  {
    if batches != [] {
      OutputsLength(round, round(s, batches[0]).0, batches[1..]);
    }
  }

  /** The first drain prints its batch and padding exactly while the batch fits the window. */
  lemma FirstComplete(batch: seq<Record>)
    ensures Padded(batch, WindowRound(FreshWindow(), batch).1) <==> |batch| <= WINDOW
  {
    if |batch| <= WINDOW {
      FreshRound(batch);
    } else {
      LeaveBound(EnterAll(FreshWindow(), batch));
    }
  }

  lemma CompleteIff(batches: seq<seq<Record>>)
    requires forall b :: b in batches ==> NoEmptyMinor(b)
    ensures Complete(batches, Outputs(WindowRound, FreshWindow(), batches)) <==> Total(batches) <= WINDOW
  {
    OutputsLength(WindowRound, FreshWindow(), batches);
    if batches != [] {
      var b := batches[0];
      var next, outputs := WindowRound(FreshWindow(), b).0, Outputs(WindowRound, FreshWindow(), batches);
      assert outputs[1..] == Outputs(WindowRound, next, batches[1..]);
      FirstComplete(b);
      if |b| <= WINDOW {
        FreshRound(b);
        SeenAll(0, 0, b);
        LaterCompleteIff(next, |b|, 0, batches[1..]);
      }
    }
  }
}
