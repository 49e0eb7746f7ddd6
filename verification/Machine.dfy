/** The machine the paging code works on: physical memory, the page-table words kept in low
    frames, and the allocator words of kernel/alloc.c.

    Addresses are page numbers: the kernel clears the twelve low bits of every address before it
    uses one, so a frame is named by its number and 0 is the null frame. */
module Machine {
  const ML_EXCEEDED := 0xffff_ffff

  /** Pages 0x100000 to 0xc0000000 belong to the program. */
  const FIRST_USER := 256
  const USER_END := 786432
  const PAGES := 1048576

  /** A page-table word: a frame number, bit 1024 (`shared`: the frame belongs to the snapshot),
      bit 512 (`cow`: writable for the program, copy first), bit 2 (`rw`: writable for the
      processor) and the remaining low bits. Module PteBits proves that this is the word itself. */
  datatype Entry = Entry(frame: nat, shared: bool, cow: bool, rw: bool, rest: nat)

  const NONE: Entry := Entry(0, false, false, false, 0)

  /** Bits 1 and 4: present, and accessible to the program. */
  const USER_BITS := 5

  function Repeat<T>(x: T, n: nat): (s: seq<T>)
    ensures |s| == n
    ensures forall i :: 0 <= i < n ==> s[i] == x
  {
    if n == 0 then [] else Repeat(x, n - 1) + [x]
  }

  type Table = t: seq<Entry> | |t| == 1024 witness Repeat(NONE, 1024)
  type Page = p: seq<nat> | |p| == 1024 witness Repeat(0, 1024)

  function EmptyTable(): Table {
    Repeat(NONE, 1024)
  }

  function ZeroPage(): Page {
    Repeat(0, 1024)
  }

  /** `low` holds the frames below 16 MiB (directories and tables), `high` the data frames;
      a frame never touched holds zeros. `lLow` and `lHigh` are the heads of the free lists. */
  datatype State = State(low: map<nat, Table>, high: map<nat, Page>, cr3: nat,
                         aLow: nat, aHigh: nat, lLow: nat, lHigh: nat, ml: nat, mlOrig: nat)

  function Low(s: State, f: nat): Table {
    if f in s.low then s.low[f] else EmptyTable()
  }

  function High(s: State, f: nat): Page {
    if f in s.high then s.high[f] else ZeroPage()
  }

  /** The page directory in use. */
  function Dir(s: State): Table {
    Low(s, s.cr3)
  }

  /** The word that maps page `p`, or NONE when its table is absent. */
  function Ent(s: State, p: nat): Entry
    requires p < PAGES
  {
    var e := Dir(s)[p / 1024];
    if e == NONE then NONE else Low(s, e.frame)[p % 1024]
  }

  predicate IsUser(p: nat) {
    FIRST_USER <= p < USER_END
  }

  /** What the program sees at a page. */
  datatype PageView = PageView(contents: Page, writable: bool)

  /** The flat memory the two-level tables stand for. */
  function View(s: State): map<nat, PageView> {
    map p | FIRST_USER <= p < USER_END && Ent(s, p) != NONE ::
      PageView(High(s, Ent(s, p).frame), Ent(s, p).rw || Ent(s, p).cow)
  }

  /** The program's pages that are mapped. */
  function Mapped(s: State): set<nat> {
    set p | FIRST_USER <= p < USER_END && Ent(s, p) != NONE
  }

  // ---- words of a table and of the directory ----

  /** The frame of the table that covers page `p`. */
  function TableOf(s: State, p: nat): nat
    requires p < PAGES
  {
    Dir(s)[p / 1024].frame
  }

  function SetDir(s: State, d: nat, e: Entry): State
    requires d < 1024
  {
    s.(low := s.low[s.cr3 := Dir(s)[d := e]])
  }

  function SetEnt(s: State, p: nat, e: Entry): State
    requires p < PAGES
  {
    s.(low := s.low[TableOf(s, p) := Low(s, TableOf(s, p))[p % 1024 := e]])
  }

  /** A free low frame's first word holds the frame number of the next one. */
  function Link(f: nat): Entry {
    Entry(f, false, false, false, 0)
  }
}
