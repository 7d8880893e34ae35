/**
The kernel side of the MP3 sample buffer: `vmem_buf`, 131072 records of four cells, written round
robin by vmem_buf_push_next. Cells are C longs; the conversions and the arithmetic on them wrap.
*/
module Ring {
  import opened Words

  const VMEM_SIZE := 524288                     // cells
  const RECORDS := 131072

  type Long = x: int | -TWO_63 <= x < TWO_63
  type Pid32 = x: int | -0x8000_0000 <= x < 0x8000_0000

  /** One record as it lies in the buffer: PID, MINOR, MAJOR, UTIL. */
  datatype Record = Record(pid: Long, minor: Long, major: Long, util: Long)

  const ZERO := Record(0, 0, 0, 0)

  // ---------------------------------------------------------------- C arithmetic

  /** `(long) x`. */
  function ToLong(x: Word64): Long {
    if x < TWO_63 then x else x - TWO_64
  }

  /** A signed product reduced to 64 bits. */
  function WrapLong(x: int): Long {
    (x + TWO_63) % TWO_64 - TWO_63
  }

  /** `x / 20`, truncating toward zero. */
  function TruncDiv20(x: Long): Long {
    var n: int := x;
    if n >= 0 then n / 20 else -(-n / 20)
  }

  /** `(long) util * 100 / 20`. */
  function UtilField(util: Word64): Long {
    TruncDiv20(WrapLong(ToLong(util) * 100))
  }

  /** The UTIL cell is five times the jiffies if and only if the product by 100 fits in a long. */
  lemma UtilFieldIsFiveTimes(util: Word64)
    ensures UtilField(util) == 5 * util <==> util * 100 < TWO_63
  {
    var product := WrapLong(ToLong(util) * 100);
    if util * 100 < TWO_63 {
      assert product == util * 100;
    } else {
      assert TruncDiv20(product) <= TWO_63 / 20 < 5 * util;
    }
  }

  function Encode(pid: Pid32, minFlt: Word64, majFlt: Word64, util: Word64): Record {
    Record(pid, ToLong(minFlt), ToLong(majFlt), UtilField(util))
  }

  // ---------------------------------------------------------------- the ring as a value

  /** `idx` is vmem_idx. */
  datatype Ring = Ring(buf: seq<Long>, idx: nat)

  ghost predicate WellFormed(r: Ring) {
    |r.buf| == VMEM_SIZE && r.idx < RECORDS
  }

  function Slot(buf: seq<Long>, j: nat): Record
    requires 4 * j + 3 < |buf|
  {
    Record(buf[4 * j], buf[4 * j + 1], buf[4 * j + 2], buf[4 * j + 3])
  }

  function Put(buf: seq<Long>, j: nat, rec: Record): (buf': seq<Long>)
    requires 4 * j + 3 < |buf|
    ensures |buf'| == |buf| && Slot(buf', j) == rec
    ensures forall c :: 0 <= c < |buf| && !(4 * j <= c <= 4 * j + 3) ==> buf'[c] == buf[c]
  {
    buf[4 * j := rec.pid][4 * j + 1 := rec.minor][4 * j + 2 := rec.major][4 * j + 3 := rec.util]
  }

  function Push(r: Ring, rec: Record): (r': Ring)
    requires WellFormed(r)
    ensures WellFormed(r')
  {
    Ring(Put(r.buf, r.idx, rec), if 4 * (r.idx + 1) >= VMEM_SIZE then 0 else r.idx + 1)
  }

  ghost function PushAll(r: Ring, recs: seq<Record>): (r': Ring)
    requires WellFormed(r)
    ensures WellFormed(r')
  {
    if recs == [] then r else Push(PushAll(r, recs[..|recs| - 1]), recs[|recs| - 1])
  }

  /** TaskList_init: the buffer starts as zeros. */
  ghost function Fresh(): (r: Ring)
    ensures WellFormed(r) && r.idx == 0
    ensures forall c :: 0 <= c < VMEM_SIZE ==> r.buf[c] == 0
  {
    Ring(seq(VMEM_SIZE, _ => 0), 0)
  }

  // ---------------------------------------------------------------- refinement

  /** The number of the newest of n samples that falls on slot j. */
  function Newest(n: nat, j: nat): (k: nat)
    requires j < n && j < RECORDS
    ensures k < n
  {
    j + (n - 1 - j) / RECORDS * RECORDS
  }

  lemma NewestIsNewest(n: nat, j: nat, m: nat)
    requires j < n && j < RECORDS
    ensures Newest(n, j) % RECORDS == j
    ensures Newest(n, j) < m < n ==> m % RECORDS != j
  {
  }

  /** What slot j should hold after the pushes `recs`. */
  function Held(recs: seq<Record>, j: nat): Record
    requires j < RECORDS
  {
    if j < |recs| then recs[Newest(|recs|, j)] else ZERO
  }

  lemma NewestStep(n: nat, j: nat)
    requires j < RECORDS
    ensures j == n % RECORDS ==> j < n + 1 && Newest(n + 1, j) == n
    ensures j != n % RECORDS ==> (j < n + 1 <==> j < n) && (j < n ==> Newest(n + 1, j) == Newest(n, j))
  {
  }

  lemma HeldStep(recs: seq<Record>, rec: Record, j: nat)
    requires j < RECORDS
    ensures Held(recs + [rec], j) == if j == |recs| % RECORDS then rec else Held(recs, j)
  {
    NewestStep(|recs|, j);
  }

  lemma SlotAfterPush(r: Ring, rec: Record, j: nat)
    requires WellFormed(r) && j < RECORDS
    ensures Slot(Push(r, rec).buf, j) == if j == r.idx then rec else Slot(r.buf, j)
  {
  }

  lemma NextIndex(n: nat)
    ensures (n + 1) % RECORDS == if 4 * (n % RECORDS + 1) >= VMEM_SIZE then 0 else n % RECORDS + 1
  {
  }

  lemma {:induction false} PushesHeld(r: Ring, recs: seq<Record>, j: nat)
    requires WellFormed(r) && r.idx == 0 && j < RECORDS && Slot(r.buf, j) == ZERO
    ensures PushAll(r, recs).idx == |recs| % RECORDS
    ensures Slot(PushAll(r, recs).buf, j) == Held(recs, j)
  {
    if recs != [] {
      var init, rec := recs[..|recs| - 1], recs[|recs| - 1];
      PushesHeld(r, init, j);
      assert init + [rec] == recs;
      HeldStep(init, rec, j);
      SlotAfterPush(PushAll(r, init), rec, j);
      NextIndex(|init|);
    }
  }

  /**
  Ring refinement: after any n pushes vmem_idx is n mod 131072, and every slot holds the newest
  sample whose number is congruent to it, or zeros if there is none yet.
  */
  lemma PushAllRefines(recs: seq<Record>)
    ensures PushAll(Fresh(), recs).idx == |recs| % RECORDS
    ensures forall j :: 0 <= j < RECORDS ==> Slot(PushAll(Fresh(), recs).buf, j) == Held(recs, j)
  {
    PushesHeld(Fresh(), recs, 0);
    forall j | 0 <= j < RECORDS ensures Slot(PushAll(Fresh(), recs).buf, j) == Held(recs, j) {
      PushesHeld(Fresh(), recs, j);
    }
  }

  // ---------------------------------------------------------------- the buffer in memory

  class VmemBuf {
    const cells: array<Long>
    var idx: nat

    ghost predicate Valid()
      reads this, cells
    {
      cells.Length == VMEM_SIZE && idx < RECORDS
    }

    ghost function View(): (r: Ring)
      requires Valid()
      reads this, cells
      ensures WellFormed(r)
    {
      Ring(cells[..], idx)
    }

    constructor ()
      ensures Valid() && fresh(cells) && View() == Fresh()
    {
      cells := new Long[VMEM_SIZE](_ => 0);
      idx := 0;
      new;
      assert cells[..] == Fresh().buf;
    }

    /** vmem_buf_push_next: four stores, then the index wraps. */
    method PushNext(pid: Pid32, minFlt: Word64, majFlt: Word64, util: Word64)
      requires Valid()
      modifies this, cells
      ensures Valid() && View() == Push(old(View()), Encode(pid, minFlt, majFlt, util))
    {
      cells[4 * idx + 0] := pid;
      cells[4 * idx + 1] := ToLong(minFlt);
      cells[4 * idx + 2] := ToLong(majFlt);
      cells[4 * idx + 3] := TruncDiv20(WrapLong(ToLong(util) * 100));
      assert cells[..] == Put(old(cells[..]), idx, Encode(pid, minFlt, majFlt, util));
      idx := idx + 1;
      if 4 * idx >= VMEM_SIZE {
        idx := 0;
      }
    }
  }
}
