/**
cdev_mmap_callback: the loop that exposes the kernel's sample buffer to user space, one page at a
time. The buffer is contiguous only in kernel virtual addresses, so each page is looked up.
*/
module Mapping {
  import opened Ring
  import opened Monitor

  const PAGE_SIZE := 4096
  const CELL := 8                               // sizeof(unsigned long)
  const EAGAIN := 11

  predicate Aligned(a: nat) {
    a % PAGE_SIZE == 0
  }

  /** Pages installed in the user's area: user page address to page frame number. */
  type PageTable = map<nat, nat>

  /** The physical address behind a user address. */
  function UserPhysical(table: PageTable, a: nat): nat
    requires a - a % PAGE_SIZE in table
  {
    table[a - a % PAGE_SIZE] * PAGE_SIZE + a % PAGE_SIZE
  }

  /** The physical address behind a vmalloc address, by the kernel's own page tables. */
  function KernelPhysical(pfn: nat -> nat, a: nat): nat {
    pfn(a - a % PAGE_SIZE) * PAGE_SIZE + a % PAGE_SIZE
  }

  /** Where page k of an area begins. */
  function PageAt(start: nat, k: nat): nat {
    start + k * PAGE_SIZE
  }

  /** Exactly the first n pages of the area are installed, each on the page of the buffer it belongs to. */
  ghost predicate Maps(table: PageTable, start: nat, buf: nat, pfn: nat -> nat, n: nat) {
    && (forall k :: 0 <= k < n ==> PageAt(start, k) in table && table[PageAt(start, k)] == pfn(PageAt(buf, k)))
    && (forall a :: a in table ==> exists k :: 0 <= k < n && a == PageAt(start, k))
  }

  lemma MapsOneMore(table: PageTable, start: nat, buf: nat, pfn: nat -> nat, n: nat)
    requires Maps(table, start, buf, pfn, n)
    ensures Maps(table[PageAt(start, n) := pfn(PageAt(buf, n))], start, buf, pfn, n + 1)
  {
    var table' := table[PageAt(start, n) := pfn(PageAt(buf, n))];
    forall a | a in table' ensures exists k :: 0 <= k < n + 1 && a == PageAt(start, k) {
      if a in table {
        var k :| 0 <= k < n && a == PageAt(start, k);
        assert 0 <= k < n + 1;
      } else {
        assert a == PageAt(start, n);
      }
    }
  }

  /**
  `pfn` is vmalloc_to_pfn and `refused` says for which user pages remap_pfn_range fails. The area is
  page aligned, as the kernel makes it. Its size is not checked against the buffer's.
  */
  method MmapCallback(vmStart: nat, vmEnd: nat, vmemBuf: nat, pfn: nat -> nat, refused: nat -> bool)
    returns (ret: int, table: PageTable)
    requires Aligned(vmStart) && Aligned(vmEnd) && vmStart <= vmEnd && Aligned(vmemBuf)
    ensures ret == 0 || ret == -EAGAIN
    ensures ret == 0 ==> Maps(table, vmStart, vmemBuf, pfn, (vmEnd - vmStart) / PAGE_SIZE)
    ensures ret == 0 ==> forall a :: vmStart <= a < vmEnd && Aligned(a) ==> !refused(a)
    ensures ret != 0 ==> exists n: nat ::
              && Maps(table, vmStart, vmemBuf, pfn, n)
              && PageAt(vmStart, n) < vmEnd && refused(PageAt(vmStart, n))
              && forall k :: 0 <= k < n ==> !refused(PageAt(vmStart, k))
  {
    var start, size, pos := vmStart, vmEnd - vmStart, vmemBuf;
    table := map[];
    ghost var n: nat := 0;
    while size > 0
      invariant start == PageAt(vmStart, n) && pos == PageAt(vmemBuf, n)
      invariant size >= 0 && start + size == vmEnd && Aligned(size)
      invariant Maps(table, vmStart, vmemBuf, pfn, n)
      invariant forall k :: 0 <= k < n ==> !refused(PageAt(vmStart, k))
      decreases size
    {
      var page := pfn(pos);
      if refused(start) {
        return -EAGAIN, table;
      }
      MapsOneMore(table, vmStart, vmemBuf, pfn, n);
      table := table[start := page];
      start := start + PAGE_SIZE;
      pos := pos + PAGE_SIZE;
      if size > PAGE_SIZE {
        size := size - PAGE_SIZE;
      } else {
        size := 0;
      }
      n := n + 1;
    }
    NoneRefused(vmStart, vmEnd, n, refused);
    return 0, table;
  }

  lemma NoneRefused(start: nat, end: nat, n: nat, refused: nat -> bool)
    requires Aligned(start) && end == PageAt(start, n)
    requires forall k :: 0 <= k < n ==> !refused(PageAt(start, k))
    ensures n == (end - start) / PAGE_SIZE
    ensures forall a :: start <= a < end && Aligned(a) ==> !refused(a)
  {
    forall a | start <= a < end && Aligned(a) ensures !refused(a) {
      assert a == PageAt(start, (a - start) / PAGE_SIZE);
    }
  }

  /** Linearity: every user offset of a mapped area lands on the same offset of the kernel buffer. */
  lemma MappingIsLinear(table: PageTable, start: nat, buf: nat, pfn: nat -> nat, n: nat, offset: nat)
    requires Maps(table, start, buf, pfn, n) && Aligned(start) && Aligned(buf) && offset < n * PAGE_SIZE
    ensures start + offset - (start + offset) % PAGE_SIZE in table
    ensures UserPhysical(table, start + offset) == KernelPhysical(pfn, buf + offset)
  {
    var k := offset / PAGE_SIZE;
    assert start + offset - (start + offset) % PAGE_SIZE == PageAt(start, k);
    assert buf + offset - (buf + offset) % PAGE_SIZE == PageAt(buf, k);
  }

  /** The area maps nothing but pages of vmem_buf if and only if it has at most 1024 of them. */
  lemma StaysInBuffer(table: PageTable, start: nat, buf: nat, pfn: nat -> nat, n: nat)
    requires Maps(table, start, buf, pfn, n)
    ensures (forall a :: a in table ==> a >= start && buf + (a - start) + PAGE_SIZE <= buf + VMEM_SIZE * CELL)
            <==> n <= 1024
  {
    if n > 1024 {
      assert PageAt(start, 1024) in table;
    }
  }

  /**
  The monitor maps 128 pages. Every cell it may touch, 0 to 48000, lies in them, and each of its
  bytes is the same byte of the same cell of the kernel's buffer.
  */
  lemma MonitorCellIsKernelCell(table: PageTable, start: nat, buf: nat, pfn: nat -> nat, i: nat, byte: nat)
    requires Maps(table, start, buf, pfn, 128) && Aligned(start) && Aligned(buf)
    requires i <= BUFD_MAX && byte < CELL
    ensures start + i * CELL + byte - (start + i * CELL + byte) % PAGE_SIZE in table
    ensures UserPhysical(table, start + i * CELL + byte) == KernelPhysical(pfn, buf + i * CELL + byte)
  {
    MappingIsLinear(table, start, buf, pfn, 128, i * CELL + byte);
  }
}
