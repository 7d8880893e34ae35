/**
From page faults to printed lines. A profiling session is a sequence of rounds: anything may happen
to the profiled processes and the pid list, the sampler pushes records, and then the monitor runs.
*/
module EndToEnd {
  import opened Ring
  import opened Monitor
  import opened SampleWindow
  import opened Pipeline
  import opened Sampler

  // ---------------------------------------------------------------- rounds

  ghost predicate RoundsLegal(s: State, rounds: seq<seq<Event>>)
    decreases |rounds|
  {
    rounds == [] || (Legal(s, rounds[0]) && RoundsLegal(Exec(s, rounds[0]).0, rounds[1..]))
  }

  /** The records pushed in each round. */
  ghost function Batches(s: State, rounds: seq<seq<Event>>): seq<seq<Record>>
    requires RoundsLegal(s, rounds)
    decreases |rounds|
  {
    if rounds == [] then []
    else [AsRecords(Exec(s, rounds[0]).1)] + Batches(Exec(s, rounds[0]).0, rounds[1..])
  }

  ghost function Final(s: State, rounds: seq<seq<Event>>): State
    requires RoundsLegal(s, rounds)
    decreases |rounds|
  {
    if rounds == [] then s else Final(Exec(s, rounds[0]).0, rounds[1..])
  }

  ghost function AccruedIn(rounds: seq<seq<Event>>, p: LivePid, ch: Channel): nat {
    if rounds == [] then 0 else Accrued(rounds[0], p, ch) + AccruedIn(rounds[1..], p, ch)
  }

  ghost function LostIn(s: State, rounds: seq<seq<Event>>, p: LivePid, ch: Channel): nat
    requires RoundsLegal(s, rounds)
    decreases |rounds|
  {
    if rounds == [] then 0
    else Lost(s, rounds[0], p, ch) + LostIn(Exec(s, rounds[0]).0, rounds[1..], p, ch)
  }

  ghost function CollectedIn(s: State, rounds: seq<seq<Event>>, p: LivePid, ch: Channel): nat
    requires RoundsLegal(s, rounds)
    decreases |rounds|
  {
    if rounds == [] then 0
    else Collected(Exec(s, rounds[0]).1, p, ch) + CollectedIn(Exec(s, rounds[0]).0, rounds[1..], p, ch)
  }

  lemma {:induction false} RoundsConserve(s: State, rounds: seq<seq<Event>>, p: LivePid, ch: Channel)
    requires RoundsLegal(s, rounds)
    ensures AccruedIn(rounds, p, ch) + Residual(s, p, ch)
            == CollectedIn(s, rounds, p, ch) + Residual(Final(s, rounds), p, ch) + LostIn(s, rounds, p, ch)
    decreases |rounds|
  {
    if rounds != [] {
      RunConserves(s, rounds[0], p, ch);
      RoundsConserve(Exec(s, rounds[0]).0, rounds[1..], p, ch);
    }
  }

  // ---------------------------------------------------------------- what is printed

  ghost function Printed(outputs: seq<seq<Record>>, p: Long, col: Column): int {
    if outputs == [] then 0 else CellSum(outputs[0], p, col) + Printed(outputs[1..], p, col)
  }

  lemma {:induction false} CellSumAppend(a: seq<Record>, b: seq<Record>, p: Long, col: Column)
    ensures CellSum(a + b, p, col) == CellSum(a, p, col) + CellSum(b, p, col)
  {
    if a == [] {
      assert a + b == b;
    } else {
      assert (a + b)[1..] == a[1..] + b;
      CellSumAppend(a[1..], b, p, col);
    }
  }

  lemma {:induction false} ForeignCells(recs: seq<Record>, p: Long, col: Column)
    requires forall k :: 0 <= k < |recs| ==> recs[k].pid != p
    ensures CellSum(recs, p, col) == 0
  {
    if recs != [] {
      ForeignCells(recs[1..], p, col);
    }
  }

  /** The padding of the first drain carries pid 0 only. */
  lemma FirstOutputCells(batch: seq<Record>, p: Long, col: Column)
    requires |batch| <= WINDOW && p != 0
    ensures CellSum(FirstOutput(batch), p, col) == CellSum(batch, p, col)
  {
    var padding := FirstOutput(batch)[|batch|..];
    assert FirstOutput(batch) == batch + padding;
    CellSumAppend(batch, padding, p, col);
    ForeignCells(padding, p, col);
  }

  /** Within the window the later drains print their batches, and the one broken record has pid 0. */
  lemma {:induction false} LaterOutputCells(batches: seq<seq<Record>>, pushed: nat, cell: Long, p: Long, col: Column)
    requires p != 0 && pushed + Total(batches) <= WINDOW && (cell == 0 || cell == EMPTY)
    ensures Printed(LaterOutput(batches, pushed, cell), p, col) == Printed(batches, p, col)
    decreases |batches|
  {
    if batches != [] {
      var b := batches[0];
      SeenAll(pushed, cell, b);
      var later, cell' := LaterOutput(batches, pushed, cell), if b != [] then cell else EMPTY;
      assert later[1..] == LaterOutput(batches[1..], pushed + |b|, cell');
      LaterOutputCells(batches[1..], pushed + |b|, cell', p, col);
      if b == [] {
        ForeignCells(later[0], p, col);
      }
    }
  }

  lemma OutputCells(batches: seq<seq<Record>>, p: Long, col: Column)
    requires Total(batches) <= WINDOW && p != 0
    ensures Printed(Output(batches), p, col) == Printed(batches, p, col)
  {
    if batches != [] {
      FirstOutputCells(batches[0], p, col);
      SeenAll(0, 0, batches[0]);
      LaterOutputCells(batches[1..], |batches[0]|, 0, p, col);
      assert Output(batches)[1..] == LaterOutput(batches[1..], |batches[0]|, 0);
    }
  }

  lemma {:induction false} BatchesMarked(s: State, rounds: seq<seq<Event>>)
    requires RoundsLegal(s, rounds)
    ensures AllMarked(Batches(s, rounds))
    decreases |rounds|
  {
    if rounds != [] {
      SampledPids(Exec(s, rounds[0]).1);
      BatchesMarked(Exec(s, rounds[0]).0, rounds[1..]);
    }
  }

  lemma SessionCells(batches: seq<seq<Record>>, p: Long, col: Column)
    requires Total(batches) <= WINDOW && AllMarked(batches) && p != 0
    ensures Printed(Session(batches), p, col) == Printed(batches, p, col)
  {
    PacedSessions(batches);
    OutputCells(batches, p, col);
  }

  ghost predicate CollectedInFits(s: State, rounds: seq<seq<Event>>, p: LivePid)
    requires RoundsLegal(s, rounds)
  {
    Fits(CollectedIn(s, rounds, p, Minor), CollectedIn(s, rounds, p, Major),
         CollectedIn(s, rounds, p, User), CollectedIn(s, rounds, p, System))
  }

  lemma {:induction false} PushedCells(s: State, rounds: seq<seq<Event>>, p: LivePid, col: Column)
    requires RoundsLegal(s, rounds) && CollectedInFits(s, rounds, p)
    ensures Printed(Batches(s, rounds), p, col)
            == Due(CollectedIn(s, rounds, p, Minor), CollectedIn(s, rounds, p, Major),
                   CollectedIn(s, rounds, p, User), CollectedIn(s, rounds, p, System), col)
    decreases |rounds|
  {
    if rounds != [] {
      var r := Exec(s, rounds[0]);
      CellsOfSnapshots(r.1, p, col);
      PushedCells(r.0, rounds[1..], p, col);
      assert Batches(s, rounds)[1..] == Batches(r.0, rounds[1..]);
    }
  }

  /** Accrued before or during the rounds, and neither lost nor still in the counter at the end. */
  ghost function Reported(s: State, rounds: seq<seq<Event>>, p: LivePid, ch: Channel): int
    requires RoundsLegal(s, rounds)
  {
    Residual(s, p, ch) + AccruedIn(rounds, p, ch) - Residual(Final(s, rounds), p, ch) - LostIn(s, rounds, p, ch)
  }

  /**
  Main theorem. For every process and every session of at most 12000 samples from a fresh buffer: the
  MINOR cells the monitor prints for it add up to exactly its minor faults that are neither lost
  nor still counted, likewise MAJOR, and the UTIL cells to five times its CPU jiffies. Nothing is
  printed twice and nothing sampled is missing.
  */
  lemma PrintedIsAccrued(s: State, rounds: seq<seq<Event>>, p: LivePid)
    requires RoundsLegal(s, rounds) && Total(Batches(s, rounds)) <= WINDOW
    requires CollectedInFits(s, rounds, p)
    ensures var printed := Session(Batches(s, rounds));
            && Printed(printed, p, MinorCol) == Reported(s, rounds, p, Minor)
            && Printed(printed, p, MajorCol) == Reported(s, rounds, p, Major)
            && Printed(printed, p, UtilCol)
               == 5 * (Reported(s, rounds, p, User) + Reported(s, rounds, p, System))
  {
    BatchesMarked(s, rounds);
    SessionCells(Batches(s, rounds), p, MinorCol);
    SessionCells(Batches(s, rounds), p, MajorCol);
    SessionCells(Batches(s, rounds), p, UtilCol);
    PushedCells(s, rounds, p, MinorCol);
    PushedCells(s, rounds, p, MajorCol);
    PushedCells(s, rounds, p, UtilCol);
    RoundsConserve(s, rounds, p, Minor);
    RoundsConserve(s, rounds, p, Major);
    RoundsConserve(s, rounds, p, User);
    RoundsConserve(s, rounds, p, System);
  }
}
