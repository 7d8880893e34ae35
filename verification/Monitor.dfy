/**
The user-space monitor: it looks for the first live cell among the first 48000, then prints and
wipes four cells at a time, wrapping at 48000, until it meets a cell that holds the empty marker -1.
*/
module Monitor {
  import opened Ring

  const BUFD_MAX := 48000
  const MAPPED := 65536                         // 128 pages of 4096 bytes, in 8-byte cells
  const EMPTY: Long := -1

  // ---------------------------------------------------------------- the two loops as functions

  function Scan(buf: seq<Long>, i: nat): (r: nat)
    requires i <= BUFD_MAX < |buf|
    ensures i <= r <= BUFD_MAX
    ensures forall c :: i <= c < r ==> buf[c] == EMPTY
    ensures r < BUFD_MAX ==> buf[r] != EMPTY
    decreases BUFD_MAX - i
  {
    if i == BUFD_MAX || buf[i] != EMPTY then i else Scan(buf, i + 1)
  }

  /** `index++; if (index >= BUFD_MAX) index = 0`. */
  function Next(i: nat): nat {
    if i + 1 >= BUFD_MAX then 0 else i + 1
  }

  function Take(buf: seq<Long>, i: nat): Record
    requires i <= BUFD_MAX < |buf|
  {
    Record(buf[i], buf[Next(i)], buf[Next(Next(i))], buf[Next(Next(Next(i)))])
  }

  function Wipe(buf: seq<Long>, i: nat): (buf': seq<Long>)
    requires i <= BUFD_MAX < |buf|
    ensures |buf'| == |buf|
  {
    buf[i := EMPTY][Next(i) := EMPTY][Next(Next(i)) := EMPTY][Next(Next(Next(i))) := EMPTY]
  }

  function After(i: nat): nat {
    Next(Next(Next(Next(i))))
  }

  /** The cells the monitor may touch that are still live. */
  ghost function Live(buf: seq<Long>): set<nat>
    requires BUFD_MAX < |buf|
  {
    set c | 0 <= c <= BUFD_MAX && buf[c] != EMPTY
  }

  /** Termination measure: each round strictly lowers the number of live cells among 0..48000. */
  lemma RoundKillsLive(buf: seq<Long>, i: nat)
    requires i <= BUFD_MAX < |buf| && buf[i] != EMPTY
    ensures Live(Wipe(buf, i)) < Live(buf)
    ensures |Live(Wipe(buf, i))| < |Live(buf)|
  {
    var a, b := Live(Wipe(buf, i)), Live(buf);
    assert i in b && i !in a;
    assert a <= b - {i};
    assert b - {i} == a + (b - {i} - a);
  }

  ghost function Drain(buf: seq<Long>, i: nat): (r: (seq<Long>, seq<Record>))
    requires i <= BUFD_MAX < |buf|
    ensures |r.0| == |buf|
    decreases Live(buf)
  {
    if buf[i] == EMPTY then (buf, [])
    else
      RoundKillsLive(buf, i);
      var rest := Drain(Wipe(buf, i), After(i));
      (rest.0, [Take(buf, i)] + rest.1)
  }

  /** One run of the program: the buffer it leaves and the records it prints. */
  ghost function Monitored(buf: seq<Long>): (r: (seq<Long>, seq<Record>))
    requires BUFD_MAX < |buf|
    ensures |r.0| == |buf|
  {
    Drain(buf, Scan(buf, 0))
  }

  // ---------------------------------------------------------------- the program

  /** main, after the buffer has been mapped; `count` is the number it reports. */
  method Run(buf: array<Long>) returns (printed: seq<Record>, count: nat)
    requires buf.Length >= MAPPED
    modifies buf
    ensures (buf[..], printed) == Monitored(old(buf[..]))
    ensures count == |printed|
    ensures forall c :: BUFD_MAX < c < buf.Length ==> buf[c] == old(buf[c])
  {
    var index := 0;
    while index < BUFD_MAX && buf[index] == EMPTY
      invariant 0 <= index <= BUFD_MAX
      invariant Scan(buf[..], index) == Scan(buf[..], 0)
    {
      index := index + 1;
    }
    assert Scan(buf[..], index) == index;
    printed, count := DrainFrom(buf, index);
  }

  /** The second loop. */
  method DrainFrom(buf: array<Long>, start: nat) returns (printed: seq<Record>, count: nat)
    requires start <= BUFD_MAX < buf.Length
    modifies buf
    ensures (buf[..], printed) == Drain(old(buf[..]), start)
    ensures count == |printed|
    ensures forall c :: BUFD_MAX < c < buf.Length ==> buf[c] == old(buf[c])
  {
    var index := start;
    printed, count := [], 0;
    ghost var all := Drain(buf[..], index);
    assert [] + all.1 == all.1;
    while buf[index] != EMPTY
      invariant 0 <= index <= BUFD_MAX
      invariant all == (Drain(buf[..], index).0, printed + Drain(buf[..], index).1)
      invariant count == |printed|
      invariant forall c :: BUFD_MAX < c < buf.Length ==> buf[c] == old(buf[c])
      decreases Live(buf[..])
    {
      ghost var cells, rest := buf[..], Drain(buf[..], index).1;
      RoundKillsLive(cells, index);
      var record;
      record, index := PrintRecord(buf, index);
      assert printed + rest == printed + [record] + rest[1..];
      printed := printed + [record];
      count := count + 1;
    }
    assert printed + [] == printed;
  }

  /** One round: four cells. */
  method PrintRecord(buf: array<Long>, index: nat) returns (record: Record, next: nat)
    requires index <= BUFD_MAX < buf.Length
    modifies buf
    ensures record == Take(old(buf[..]), index) && next == After(index)
    ensures buf[..] == Wipe(old(buf[..]), index)
  {
    var pid, minor, major, util;
    pid, next := PrintCell(buf, index);
    minor, next := PrintCell(buf, next);
    major, next := PrintCell(buf, next);
    util, next := PrintCell(buf, next);
    record := Record(pid, minor, major, util);
  }

  /** Print one cell, overwrite it with -1 and step to the next one. */
  method PrintCell(buf: array<Long>, index: nat) returns (cell: Long, next: nat)
    requires index <= BUFD_MAX < buf.Length
    modifies buf
    ensures cell == old(buf[index]) && next == Next(index)
    ensures buf[..] == old(buf[..])[index := EMPTY]
  {
    cell := buf[index];
    buf[index] := EMPTY;
    next := index + 1;
    if next >= BUFD_MAX {
      next := 0;
    }
  }
}
