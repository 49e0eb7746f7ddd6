/** The page-table word of section 4.3 of the Intel SDM, Volume 3A, as the 32 bits it is. Every bit
    trick of kernel/paging.c is the operation on Entry that the model uses. */
module PteBits {
  import opened Machine
  import opened Snapshot
  import opened MapSteps
  import opened Paging

  /** Bits 12 to 31, 10, 9 and 1, and the other low bits. */
  function Decode(w: bv32): Entry {
    Entry((w >> 12) as nat, w & 1024 != 0, w & 512 != 0, w & 2 != 0, (w & 0x9fd) as nat)
  }

  lemma SameBits(v: bv32, w: bv32)
    requires v as nat == w as nat
    ensures v == w
  {
    assert (v as nat) as bv32 == v && (w as nat) as bv32 == w;
  }

  /** The datatype loses nothing: it is the word. */
  lemma DecodeInjective(v: bv32, w: bv32)
    requires Decode(v) == Decode(w)
    ensures v == w
  {
    SameBits(v >> 12, w >> 12);
    SameBits(v & 0x9fd, w & 0x9fd);
  }

  /** `if(tbl[i])` tests for the absent entry. */
  lemma ZeroIsNone(w: bv32)
    ensures w == 0 <==> Decode(w) == NONE
  {
    if Decode(w) == NONE {
      DecodeInjective(w, 0);
    }
  }

  lemma PreparedBits(w: bv32)
    requires w != 0
    ensures Decode((w | ((w & 2) << 8) | 1024) & 0xffff_fffd) == Prepared(Decode(w))
  {
    ZeroIsNone(w);
    var u := (w | ((w & 2) << 8) | 1024) & 0xffff_fffd;
    assert u >> 12 == w >> 12 && u & 0x9fd == w & 0x9fd;
  }

  lemma UnsharedFields(w: bv32, page: bv32)
    requires page & 0xfff == 0
    ensures
      var u := page | (w & 0x9ff) | ((w & 512) >> 8);
      u >> 12 == page >> 12 && u & 0x9fd == w & 0x9fd
  {
  }

  lemma UnsharedRights(w: bv32, page: bv32)
    requires page & 0xfff == 0
    ensures
      var u := page | (w & 0x9ff) | ((w & 512) >> 8);
      u & 1024 == 0 && u & 512 == 0 && (u & 2 != 0 <==> (w & 2 != 0 || w & 512 != 0))
  {
  }

  /** `page | (pgdir[i] & 0x9ff) | (pgdir[i] & 512) >> 8`, for the address of a frame. */
  lemma UnsharedBits(w: bv32, page: bv32)
    requires page & 0xfff == 0
    ensures Decode(page | (w & 0x9ff) | ((w & 512) >> 8)) == Unshared(Decode(w)).(frame := (page >> 12) as nat)
  {
    UnsharedFields(w, page);
    UnsharedRights(w, page);
  }

  /** `pgdir[i] |= (pgdir[i] & 1024u) ? 512u : 2u` */
  lemma AllowBits(w: bv32)
    ensures Decode(w | (if w & 1024 != 0 then 512 else 2)) == WithRights(Decode(w), true)
  {
    if w & 1024 != 0 {
      var u := w | 512;
      assert u >> 12 == w >> 12 && u & 0x9fd == w & 0x9fd;
    } else {
      var u := w | 2;
      assert u >> 12 == w >> 12 && u & 0x9fd == w & 0x9fd;
    }
  }

  /** `pgdir[i] &= ~514u` */
  lemma DenyBits(w: bv32)
    ensures Decode(w & 0xffff_fdfd) == WithRights(Decode(w), false)
  {
    var u := w & 0xffff_fdfd;
    assert u >> 12 == w >> 12 && u & 0x9fd == w & 0x9fd;
  }

  /** `page | (rw ? 2 : 0) | 5`; with `rw` it is also `page | 7`. */
  lemma FreshBits(page: bv32, rw: bool)
    requires page & 0xfff == 0
    ensures Decode(page | (if rw then 2 else 0) | 5) == Entry((page >> 12) as nat, false, false, rw, USER_BITS)
  {
    var u := page | (if rw then 2 else 0) | 5;
    assert u >> 12 == page >> 12 && u & 0x9fd == 5;
  }

  /** `pt2[i2b] |= 1024u` in move_pages, and `pgdir[i] |= 1024u` in cow_prepare. */
  lemma MarkBits(w: bv32)
    ensures Decode(w | 1024) == Decode(w).(shared := true)
  {
    var u := w | 1024;
    assert u >> 12 == w >> 12 && u & 0x9fd == w & 0x9fd;
  }

  /** `cntr | 0x103` and `pgtbl_addr | 3` in init_paging: the kernel's own mappings and their tables. */
  lemma BootBits(page: bv32)
    requires page & 0xfff == 0
    ensures Decode(page | 0x103) == Kernel.KernelWord((page >> 12) as nat)
    ensures Decode(page | 3) == Entry((page >> 12) as nat, false, false, true, 1)
    ensures Decode(page | 7) == Entry((page >> 12) as nat, false, false, true, USER_BITS)
  {
    assert (page | 0x103) >> 12 == page >> 12 && (page | 0x103) & 0x9fd == 0x101;
    assert (page | 3) >> 12 == page >> 12 && (page | 3) & 0x9fd == 1;
    assert (page | 7) >> 12 == page >> 12 && (page | 7) & 0x9fd == 5;
  }

  /** `pgdir & ~4095u` is the address of the entry's frame. */
  lemma FrameBits(w: bv32)
    ensures Decode(w & 0xffff_f000) == Entry(Decode(w).frame, false, false, false, 0)
  {
    var u := w & 0xffff_f000;
    assert u >> 12 == w >> 12 && u & 0x9fd == 0;
  }
}
