/** The stack a program starts with (load_executable of kernel/vmem.c): one pass adds up the sizes,
    another writes, and section 2.3.1 of the System V ABI, Intel386 supplement, says how to read it. */
module InitialStack {
  import opened Integers
  import opened Bytes

  const LOW := 0xbf80_0000
  const TOP := 0xc000_0000
  const SIZE := 0x80_0000

  /** "notrandomdata!!!" and "i686" with its zero byte. */
  const RANDOM: seq<byte> := [110, 111, 116, 114, 97, 110, 100, 111, 109, 100, 97, 116, 97, 33, 33, 33]
  const PLATFORM: seq<byte> := [105, 54, 56, 54, 0]

  /** The bytes of C strings one after the other. */
  function Cat(ss: seq<seq<byte>>): seq<byte> {
    if ss == [] then [] else Cat(ss[..|ss| - 1]) + ss[|ss| - 1] + [0]
  }

  lemma CatNext(ss: seq<seq<byte>>, k: nat)
    requires k < |ss|
    ensures Cat(ss[..k + 1]) == Cat(ss[..k]) + ss[k] + [0]
  {
    var u := ss[..k + 1];
    assert u[..|u| - 1] == ss[..k];
  }

  /** Words in memory. */
  function WordsOf(ws: seq<nat>): (r: seq<byte>)
    ensures |r| == 4 * |ws|
  {
    if ws == [] then [] else WordsOf(ws[..|ws| - 1]) + Le(ws[|ws| - 1], 4)
  }

  lemma WordsNext(ws: seq<nat>, w: nat)
    ensures WordsOf(ws + [w]) == WordsOf(ws) + Le(w, 4)
  {
    assert (ws + [w])[..|ws|] == ws;
  }

  /** Where the strings start, when the first is at `at`. */
  function Pointers(at: nat, ss: seq<seq<byte>>): (r: seq<nat>)
    ensures |r| == |ss| && forall i :: 0 <= i < |ss| ==> r[i] == at + |Cat(ss[..i])|
  {
    seq(|ss|, i requires 0 <= i < |ss| => at + |Cat(ss[..i])|)
  }

  /** What load_executable knows of the program. */
  datatype Invocation = Invocation(argv: seq<seq<byte>>, envp: seq<seq<byte>>, exe: seq<byte>,
                             phdr: nat, phnum: nat, base: nat, entry: nat)

  predicate InvocationOk(p: Invocation) {
    && (forall i :: 0 <= i < |p.argv| ==> 0 !in p.argv[i]) && (forall i :: 0 <= i < |p.envp| ==> 0 !in p.envp[i])
    && 0 !in p.exe
    && p.phdr < U32 && p.phnum < U32 && p.base < U32 && p.entry < U32
  }

  function AuxStrings(p: Invocation): (r: seq<byte>)
    ensures |r| == 16 + |p.exe| + 1 + 5
  {
    RANDOM + p.exe + [0] + PLATFORM
  }

  /** The string area. */
  function Strings(p: Invocation): seq<byte> {
    Cat(p.argv) + Cat(p.envp) + AuxStrings(p)
  }

  function StringsAt(p: Invocation): int {
    TOP - |Strings(p)|
  }

  function RoundDown(x: int, q: int): int
    requires q > 0
  {
    x - x % q
  }

  /** The stack pointer. */
  function Esp(p: Invocation): int {
    RoundDown(RoundDown(StringsAt(p), 4) - 19 * 8 - 4 * |p.argv| - 4 - 4 * |p.envp| - 4 - 4, 16)
  }

  function AuxFirst(p: Invocation): (r: seq<nat>)
    ensures |r| == 29
  {
    [16, 0xbfebfbff, 6, 4096, 17, 100, 3, p.phdr, 4, 32, 5, p.phnum, 7, p.base, 8, 0, 9, p.entry,
     11, 179, 12, 179, 13, 179, 14, 179, 23, 0, 25]
  }

  /** The auxiliary vector: type and value of each entry. AT_RANDOM, AT_EXECFN and AT_PLATFORM are
      addresses of strings. */
  function Auxv(p: Invocation, random: nat): (r: seq<nat>)
    ensures |r| == 36
  {
    AuxFirst(p) + [random] + [26, 0, 31] + [random + 16] + [15] + [random + 16 + |p.exe| + 1]
  }

  /** All words from the stack pointer on. */
  function Vector(p: Invocation): seq<nat>
    requires StringsAt(p) >= 0
  {
    [|p.argv|] + Pointers(StringsAt(p), p.argv) + [0] + Pointers(StringsAt(p) + |Cat(p.argv)|, p.envp) + [0]
    + Auxv(p, StringsAt(p) + |Cat(p.argv)| + |Cat(p.envp)|)
  }

  /** The program's strings and pointers have room on the stack. */
  predicate Fits(p: Invocation) {
    Esp(p) >= LOW
  }

  /** `mem` is the stack: `ws` at offset `e`, `bs` at offset `r`, zeros elsewhere. */
  ghost predicate Out(mem: seq<byte>, e: nat, ws: seq<byte>, r: nat, bs: seq<byte>) {
    && |mem| == SIZE && e + |ws| <= r && r + |bs| <= SIZE
    && mem[e..e + |ws|] == ws && mem[r..r + |bs|] == bs
    && forall i :: 0 <= i < SIZE && !(e <= i < e + |ws|) && !(r <= i < r + |bs|) ==> mem[i] == 0
  }

  lemma OutStart(e: nat, r: nat)
    requires e <= r <= SIZE
    ensures Out(Zeros(SIZE), e, [], r, [])
  {
  }

  function Store(mem: seq<byte>, at: nat, bs: seq<byte>): seq<byte>
    requires at + |bs| <= |mem|
  {
    mem[..at] + bs + mem[at + |bs|..]
  }

  lemma StoreSlice(mem: seq<byte>, at: nat, bs: seq<byte>, lo: nat, hi: nat)
    requires at + |bs| <= |mem| && lo <= hi <= |mem|
    ensures hi <= at || at + |bs| <= lo ==> Store(mem, at, bs)[lo..hi] == mem[lo..hi]
    ensures hi == at ==> Store(mem, at, bs)[lo..at + |bs|] == mem[lo..hi] + bs
    ensures forall i :: 0 <= i < |mem| && !(at <= i < at + |bs|) ==> Store(mem, at, bs)[i] == mem[i]
  {
  }

  lemma OutWord(mem: seq<byte>, e: nat, ws: seq<byte>, r: nat, bs: seq<byte>, w: seq<byte>)
    requires Out(mem, e, ws, r, bs) && e + |ws| + |w| <= r
    ensures Out(Store(mem, e + |ws|, w), e, ws + w, r, bs)
  {
    var at := e + |ws|;
    StoreSlice(mem, at, w, e, at);
    StoreSlice(mem, at, w, r, r + |bs|);
    hide Store;
  }

  lemma OutBytes(mem: seq<byte>, e: nat, ws: seq<byte>, r: nat, bs: seq<byte>, b: seq<byte>)
    requires Out(mem, e, ws, r, bs) && r + |bs| + |b| <= SIZE
    ensures Out(Store(mem, r + |bs|, b), e, ws, r, bs + b)
  {
    var at := r + |bs|;
    StoreSlice(mem, at, b, r, at);
    StoreSlice(mem, at, b, e, e + |ws|);
    hide Store;
  }

  /** One byte less for each byte of each string, and one for its zero. */
  method StringSizes(from: int, ss: seq<seq<byte>>) returns (esp: int)
    ensures esp == from - |Cat(ss)|
  {
    esp := from;
    for i := 0 to |ss|
      invariant esp == from - |Cat(ss[..i])|
    {
      for j := 0 to |ss[i]|
        invariant esp == from - |Cat(ss[..i])| - j
      {
        esp := esp - 1;
      }
      esp := esp - 1;
      CatNext(ss, i);
    }
    assert ss[..|ss|] == ss;
  }

  /** The sizes are added up exactly. */
  method Sizes(p: Invocation) returns (esp: int, strp: int)
    ensures strp == StringsAt(p) && esp == Esp(p)
  {
    esp := TOP;
    esp := esp - 5;
    esp := esp - 16;
    for i := 0 to |p.exe|
      invariant esp == TOP - 21 - i
    {
      esp := esp - 1;
    }
    esp := esp - 1;
    esp := StringSizes(esp, p.argv);
    esp := StringSizes(esp, p.envp);
    strp := esp;
    esp := RoundDown(esp, 4);
    esp := esp - 19 * 8;
    for i := 0 to |p.argv|
      invariant esp == RoundDown(strp, 4) - 19 * 8 - 4 * i
    {
      esp := esp - 4;
    }
    esp := esp - 4;
    for i := 0 to |p.envp|
      invariant esp == RoundDown(strp, 4) - 19 * 8 - 4 * |p.argv| - 4 - 4 * i
    {
      esp := esp - 4;
    }
    esp := esp - 4;
    esp := esp - 4;
    esp := RoundDown(esp, 16);
  }

  lemma CatEmpty(ss: seq<seq<byte>>)
    ensures Cat(ss[..0]) == []
  {
  }

  lemma OutBounds(mem: seq<byte>, e: nat, ws: seq<byte>, r: nat, bs: seq<byte>)
    requires Out(mem, e, ws, r, bs)
    ensures |mem| == SIZE && e + |ws| <= r && r + |bs| <= SIZE
  {
  }

  lemma {:induction false} CatGrows(ss: seq<seq<byte>>, k: nat)
    requires k <= |ss|
    ensures |Cat(ss[..k])| <= |Cat(ss)|
    decreases |ss| - k
  {
    if k < |ss| {
      CatGrows(ss, k + 1);
      CatNext(ss, k);
    } else {
      assert ss[..k] == ss;
    }
  }

  /** The stack and the two pointers that write it. */
  class Stack {
    var mem: seq<byte>
    var espOut: nat
    var strpOut: nat
    /** What is written so far, from where. */
    ghost var esp: nat
    ghost var strp: nat
    ghost var words: seq<nat>
    ghost var strings: seq<byte>

    ghost predicate Valid()
      reads this
    {
      && LOW <= esp <= strp && Out(mem, esp - LOW, WordsOf(words), strp - LOW, strings)
      && espOut == esp + 4 * |words| && strpOut == strp + |strings|
    }

    constructor (e: nat, s: nat)
      requires LOW <= e <= s <= TOP
      ensures Valid() && esp == espOut == e && strp == strpOut == s && words == [] && strings == []
    {
      mem := Zeros(SIZE);
      espOut, strpOut, esp, strp, words, strings := e, s, e, s, [], [];
      new;
      OutStart(e - LOW, s - LOW);
    }

    /** *esp_out++ = w */
    method PushWord(w: nat)
      requires Valid() && espOut + 4 <= strp
      modifies this`mem, this`espOut, this`words
      ensures Valid() && words == old(words) + [w] && espOut == old(espOut) + 4
    {
      hide Out;
      OutBounds(mem, esp - LOW, WordsOf(words), strp - LOW, strings);
      OutWord(mem, esp - LOW, WordsOf(words), strp - LOW, strings, Le(w, 4));
      WordsNext(words, w);
      mem := Store(mem, espOut - LOW, Le(w, 4));
      espOut := espOut + 4;
      words := words + [w];
    }

    /** *strp_out++ = b */
    method PushByte(b: byte)
      requires Valid() && strpOut < TOP
      modifies this`mem, this`strpOut, this`strings
      ensures Valid() && strings == old(strings) + [b] && strpOut == old(strpOut) + 1
    {
      hide Out;
      OutBounds(mem, esp - LOW, WordsOf(words), strp - LOW, strings);
      OutBytes(mem, esp - LOW, WordsOf(words), strp - LOW, strings, [b]);
      mem := Store(mem, strpOut - LOW, [b]);
      strpOut := strpOut + 1;
      strings := strings + [b];
    }

    method PushBytes(bs: seq<byte>)
      requires Valid() && strpOut + |bs| <= TOP
      modifies this`mem, this`strpOut, this`strings
      ensures Valid() && strings == old(strings) + bs && strpOut == old(strpOut) + |bs|
    {
      hide Stack.Valid;
      for i := 0 to |bs|
        invariant Valid() && strings == old(strings) + bs[..i] && strpOut == old(strpOut) + i
      {
        assert bs[..i + 1] == bs[..i] + [bs[i]];
        PushByte(bs[i]);
      }
      assert bs[..|bs|] == bs;
    }

    /** The words of `ws`, one store each. */
    method PushWords(ws: seq<nat>)
      requires Valid() && espOut + 4 * |ws| <= strp
      modifies this`mem, this`espOut, this`words
      ensures Valid() && words == old(words) + ws && espOut == old(espOut) + 4 * |ws|
    {
      hide Stack.Valid;
      for i := 0 to |ws|
        invariant Valid() && words == old(words) + ws[..i] && espOut == old(espOut) + 4 * i
      {
        assert ws[..i + 1] == ws[..i] + [ws[i]];
        PushWord(ws[i]);
      }
      assert ws[..|ws|] == ws;
    }

    /** The pointers and the strings of a list, and the null that ends it. */
    method PushString(t: seq<byte>)
      requires Valid() && strpOut + |t| + 1 <= TOP
      modifies this`mem, this`strpOut, this`strings
      ensures Valid() && strings == old(strings) + t + [0] && strpOut == old(strpOut) + |t| + 1
    {
      hide Stack.Valid;
      PushBytes(t);
      PushByte(0);
    }

    method PushList(ss: seq<seq<byte>>)
      requires Valid() && espOut + 4 * |ss| + 4 <= strp && strpOut + |Cat(ss)| <= TOP
      modifies this`mem, this`espOut, this`strpOut, this`words, this`strings
      ensures Valid() && words == old(words) + Pointers(old(strpOut), ss) + [0] && strings == old(strings) + Cat(ss)
      ensures espOut == old(espOut) + 4 * |ss| + 4 && strpOut == old(strpOut) + |Cat(ss)|
    {
      hide Out, Cat, Stack.Valid;
      CatEmpty(ss);
      ghost var ps := Pointers(strpOut, ss);
      for i := 0 to |ss|
        invariant Valid() && words == old(words) + ps[..i] && strings == old(strings) + Cat(ss[..i])
        invariant espOut == old(espOut) + 4 * i && strpOut == old(strpOut) + |Cat(ss[..i])|
      {
        CatNext(ss, i);
        CatGrows(ss, i + 1);
        assert ps[..i + 1] == ps[..i] + [ps[i]];
        PushWord(strpOut);
        PushString(ss[i]);
      }
      assert ps[..|ss|] == ps && ss[..|ss|] == ss;
      PushWord(0);
    }

    method Result() returns (m: seq<byte>)
      requires Valid()
      ensures LOW <= esp <= strp && Out(m, esp - LOW, WordsOf(words), strp - LOW, strings)
      ensures strpOut == strp + |strings|
    {
      m := mem;
    }

    /** The auxiliary vector, with its three strings. */
    method PushAux(p: Invocation)
      requires Valid() && espOut + 4 * 36 <= strp && strpOut + 16 + |p.exe| + 1 + 5 <= TOP
      modifies this`mem, this`espOut, this`strpOut, this`words, this`strings
      ensures Valid() && words == old(words) + Auxv(p, old(strpOut))
      ensures strings == old(strings) + AuxStrings(p)
      ensures strpOut == old(strpOut) + 16 + |p.exe| + 1 + 5
    {
      hide AuxFirst, Stack.Valid;
      PushWords(AuxFirst(p));
      PushWord(strpOut);
      PushBytes(RANDOM);
      PushWords([26, 0, 31]);
      PushWord(strpOut);
      PushString(p.exe);
      PushWord(15);
      PushWord(strpOut);
      PushBytes(PLATFORM);
    }
  }

  lemma RoomFor(p: Invocation)
    requires Fits(p)
    ensures LOW <= Esp(p) && Esp(p) + 4 * (3 + |p.argv| + |p.envp| + 38) <= StringsAt(p) <= TOP
  {
  }

  /** The word `k` places above the stack pointer, which is at offset `e`. */
  function StackWord(mem: seq<byte>, e: nat, k: nat): nat
    requires e + 4 * k + 4 <= |mem|
  {
    Word(mem, e + 4 * k)
  }

  /** The address `w` is that of the string. */
  ghost predicate PointsAt(mem: seq<byte>, w: nat, s: seq<byte>) {
    w >= LOW && StringAt(mem, w - LOW, s)
  }

  /** The entries of a list of pointers from word `k` on, and the null behind them. */
  ghost predicate ListAt(mem: seq<byte>, e: nat, k: nat, ss: seq<seq<byte>>) {
    && e + 4 * (k + |ss|) + 4 <= |mem|
    && (forall i :: 0 <= i < |ss| ==> PointsAt(mem, StackWord(mem, e, k + i), ss[i]))
    && StackWord(mem, e, k + |ss|) == 0
  }

  ghost predicate Pairs(mem: seq<byte>, e: nat, k: nat, aux: seq<nat>)
    requires e + 4 * (k + |aux|) <= |mem|
  {
    forall i :: 0 <= i < |aux| ==> StackWord(mem, e, k + i) == aux[i]
  }

  ghost predicate AuxTexts(mem: seq<byte>, random: nat, p: Invocation) {
    && LOW <= random && random - LOW + 16 <= |mem| && mem[random - LOW..random - LOW + 16] == RANDOM
    && PointsAt(mem, random + 16, p.exe) && PointsAt(mem, random + 16 + |p.exe| + 1, [105, 54, 56, 54])
  }

  /** The 18 pairs, the three addresses among them leading to their strings. */
  ghost predicate AuxAt(mem: seq<byte>, e: nat, k: nat, p: Invocation)
    requires e + 4 * (k + 36) <= |mem|
  {
    var random := StackWord(mem, e, k + 29);
    && Pairs(mem, e, k, Auxv(p, random)) && AuxTexts(mem, random, p)
  }

  // ---- reading it back, as the ABI says ----

  /** Types of auxiliary entries, of the ABI and of Linux. */
  const AT_NULL := 0
  const AT_PHDR := 3
  const AT_PHENT := 4
  const AT_PHNUM := 5
  const AT_PAGESZ := 6
  const AT_BASE := 7
  const AT_FLAGS := 8
  const AT_ENTRY := 9
  const AT_UID := 11
  const AT_EUID := 12
  const AT_GID := 13
  const AT_EGID := 14
  const AT_PLATFORM := 15
  const AT_HWCAP := 16
  const AT_CLKTCK := 17
  const AT_SECURE := 23
  const AT_RANDOM := 25
  const AT_HWCAP2 := 26
  const AT_EXECFN := 31

  /** How a program looks up an entry: pair by pair from word `k` on, up to AT_NULL. */
  function AuxValue(mem: seq<byte>, e: nat, k: nat, t: nat): Option<nat>
    decreases |mem| - 4 * k
  {
    if e + 4 * k + 8 > |mem| || StackWord(mem, e, k) == AT_NULL then None
    else if StackWord(mem, e, k) == t then Some(StackWord(mem, e, k + 1))
    else AuxValue(mem, e, k + 2, t)
  }

  /** The entry of type `t` has the value `v`. */
  ghost predicate Entry(mem: seq<byte>, e: nat, k: nat, t: nat, v: nat) {
    AuxValue(mem, e, k, t) == Some(v)
  }

  /** The entry of type `t` is the address of the string. */
  ghost predicate TextEntry(mem: seq<byte>, e: nat, k: nat, t: nat, s: seq<byte>) {
    AuxValue(mem, e, k, t).Some? && PointsAt(mem, AuxValue(mem, e, k, t).value, s)
  }

  /** The characters as bytes. */
  function Ascii(s: string): (r: seq<byte>)
    requires forall i :: 0 <= i < |s| ==> s[i] as int < 256
    ensures |r| == |s| && forall i :: 0 <= i < |s| ==> r[i] == s[i] as int
  {
    seq(|s|, i requires 0 <= i < |s| => s[i] as int)
  }

  /** AT_RANDOM leads to 16 bytes. */
  ghost predicate RandomEntry(mem: seq<byte>, e: nat, k: nat) {
    var w := AuxValue(mem, e, k, AT_RANDOM);
    w.Some? && w.value >= LOW && w.value - LOW + 16 <= |mem| &&
    mem[w.value - LOW..w.value - LOW + 16] == Ascii("notrandomdata!!!")
  }

  /** What a program finds in the auxiliary vector: 18 entries of different types, by type. */
  ghost predicate AuxFound(mem: seq<byte>, e: nat, k: nat, p: Invocation) {
    && Entry(mem, e, k, AT_PHDR, p.phdr) && Entry(mem, e, k, AT_PHENT, 32) && Entry(mem, e, k, AT_PHNUM, p.phnum)
    && Entry(mem, e, k, AT_PAGESZ, 4096) && Entry(mem, e, k, AT_BASE, p.base) && Entry(mem, e, k, AT_FLAGS, 0)
    && Entry(mem, e, k, AT_ENTRY, p.entry)
    && Entry(mem, e, k, AT_UID, 179) && Entry(mem, e, k, AT_EUID, 179)
    && Entry(mem, e, k, AT_GID, 179) && Entry(mem, e, k, AT_EGID, 179)
    && Entry(mem, e, k, AT_HWCAP, 0xbfeb_fbff) && Entry(mem, e, k, AT_HWCAP2, 0)
    && Entry(mem, e, k, AT_CLKTCK, 100) && Entry(mem, e, k, AT_SECURE, 0)
    && RandomEntry(mem, e, k)
    && TextEntry(mem, e, k, AT_EXECFN, p.exe) && TextEntry(mem, e, k, AT_PLATFORM, Ascii("i686"))
  }

  /** The type of pair `i`. */
  function AuxType(mem: seq<byte>, e: nat, k: nat, i: nat): nat
    requires e + 4 * (k + 36) <= |mem| && i < 18
  {
    StackWord(mem, e, k + 2 * i)
  }

  /** No type comes twice, and none is AT_NULL. */
  ghost predicate TypesDiffer(mem: seq<byte>, e: nat, k: nat)
    requires e + 4 * (k + 36) <= |mem|
  {
    && (forall i :: 0 <= i < 18 ==> AuxType(mem, e, k, i) != AT_NULL)
    && forall i, j :: 0 <= i < j < 18 ==> AuxType(mem, e, k, i) != AuxType(mem, e, k, j)
  }

  /** The lookup finds the first pair of its type. */
  lemma {:induction false} Looked(mem: seq<byte>, e: nat, k: nat, aux: seq<nat>, t: nat, j: nat)
    requires e + 4 * (k + |aux|) <= |mem| && Pairs(mem, e, k, aux) && 2 * j + 1 < |aux|
    requires aux[2 * j] == t != AT_NULL && forall i :: 0 <= i < j ==> aux[2 * i] != t && aux[2 * i] != AT_NULL
    ensures AuxValue(mem, e, k, t) == Some(aux[2 * j + 1])
    decreases j
  {
    assert StackWord(mem, e, k + 0) == aux[0] && StackWord(mem, e, k + 1) == aux[1];
    if j > 0 {
      assert aux[2 * 0] != t;
      var rest := aux[2..];
      forall i | 0 <= i < |rest| ensures StackWord(mem, e, k + 2 + i) == rest[i] {
        assert StackWord(mem, e, k + (i + 2)) == aux[i + 2];
      }
      assert forall i :: 0 <= i < j - 1 ==> rest[2 * i] == aux[2 * (i + 1)];
      Looked(mem, e, k + 2, rest, t, j - 1);
    }
  }

  /** The types of the 18 pairs, in the order they are written. */
  function Types(): (r: seq<nat>)
    ensures |r| == 18
  {
    [16, 6, 17, 3, 4, 5, 7, 8, 9, 11, 12, 13, 14, 23, 25, 26, 31, 15]
  }

  lemma TypesAre(p: Invocation, random: nat)
    ensures forall i :: 0 <= i < 18 ==> Auxv(p, random)[2 * i] == Types()[i]
  {
  }

  lemma TypesOnce()
    ensures forall i :: 0 <= i < 18 ==> Types()[i] != AT_NULL
    ensures forall i, j :: 0 <= i < j < 18 ==> Types()[i] != Types()[j]
  {
  }

  /** The pair at place `j` is what the lookup of its type finds. */
  lemma PairFound(mem: seq<byte>, e: nat, k: nat, p: Invocation, random: nat, j: nat)
    requires e + 4 * (k + 36) <= |mem| && Pairs(mem, e, k, Auxv(p, random)) && j < 18
    ensures Entry(mem, e, k, Types()[j], Auxv(p, random)[2 * j + 1])
  {
    hide Auxv, Types, StackWord;
    TypesAre(p, random);
    TypesOnce();
    Looked(mem, e, k, Auxv(p, random), Types()[j], j);
  }

  /** What a program finds at its stack pointer: argc, argv, envp, then 18 pairs and AT_NULL. */
  ghost predicate Abi(mem: seq<byte>, esp: int, p: Invocation) {
    var n, m := |p.argv|, |p.envp|;
    && |mem| == SIZE && LOW <= esp && esp % 16 == 0 && esp + 4 * (3 + n + m + 38) <= TOP
    && var e := esp - LOW;
    && StackWord(mem, e, 0) == n
    && ListAt(mem, e, 1, p.argv) && ListAt(mem, e, 2 + n, p.envp)
    && AuxFound(mem, e, 3 + n + m, p) && TypesDiffer(mem, e, 3 + n + m)
    && StackWord(mem, e, 3 + n + m + 36) == 0 && StackWord(mem, e, 3 + n + m + 37) == 0
  }

  lemma OutWords(mem: seq<byte>, e: nat, ws: seq<byte>, r: nat, bs: seq<byte>)
    requires Out(mem, e, ws, r, bs)
    ensures e + |ws| <= |mem| && mem[e..e + |ws|] == ws
  {
  }

  lemma {:induction false} WordsAt(ws: seq<nat>, k: nat)
    requires k < |ws|
    ensures WordsOf(ws)[4 * k..4 * k + 4] == Le(ws[k], 4)
  {
    var n := |ws| - 1;
    if k < n {
      WordsAt(ws[..n], k);
      assert WordsOf(ws)[4 * k..4 * k + 4] == WordsOf(ws[..n])[4 * k..4 * k + 4];
    }
  }

  lemma SliceWithin(m: seq<byte>, a: nat, v: seq<byte>, lo: nat, hi: nat)
    requires lo <= hi <= |v| && a + |v| <= |m| && m[a..a + |v|] == v
    ensures v[lo..hi] == m[a + lo..a + hi]
  {
    var u, w := v[lo..hi], m[a + lo..a + hi];
    forall i | 0 <= i < |w| ensures u[i] == w[i] {
      assert u[i] == v[lo + i] == m[a..a + |v|][lo + i] == m[a + lo + i] == w[i];
    }
  }

  lemma WordInside(m: seq<byte>, a: nat, v: seq<byte>, k: nat, w: nat)
    requires a + |v| <= |m| && m[a..a + |v|] == v && k + 4 <= |v| && v[k..k + 4] == Le(w, 4) && w < U32
    ensures Word(m, a + k) == w
  {
    hide Word, Le;
    SliceWithin(m, a, v, k, k + 4);
    WordIs(m, a + k, w);
  }

  lemma WordsWithin(m: seq<byte>, a: nat, ws: seq<nat>, k: nat)
    requires a + |WordsOf(ws)| <= |m| && m[a..a + |WordsOf(ws)|] == WordsOf(ws) && k < |ws| && ws[k] < U32
    ensures Word(m, a + 4 * k) == ws[k]
  {
    hide *;
    WordsAt(ws, k);
    WordInside(m, a, WordsOf(ws), 4 * k, ws[k]);
  }

  lemma WordOut(mem: seq<byte>, e: nat, ws: seq<nat>, r: nat, bs: seq<byte>, k: nat)
    requires Out(mem, e, WordsOf(ws), r, bs) && k < |ws| && ws[k] < U32
    ensures e + 4 * k + 4 <= |mem| && StackWord(mem, e, k) == ws[k]
  {
    hide Out, WordsOf, Word;
    OutWords(mem, e, WordsOf(ws), r, bs);
    WordsWithin(mem, e, ws, k);
  }

  lemma {:induction false} StringIn(ss: seq<seq<byte>>, i: nat)
    requires i < |ss|
    ensures |Cat(ss[..i])| + |ss[i]| + 1 <= |Cat(ss)|
    ensures Cat(ss)[|Cat(ss[..i])|..|Cat(ss[..i])| + |ss[i]| + 1] == ss[i] + [0]
    decreases |ss|
  {
    var n := |ss| - 1;
    var a := |Cat(ss[..i])|;
    if i < n {
      assert ss[..n][..i] == ss[..i];
      StringIn(ss[..n], i);
      assert Cat(ss)[a..a + |ss[i]| + 1] == Cat(ss[..n])[a..a + |ss[i]| + 1];
    }
  }

  lemma OutText(mem: seq<byte>, e: nat, ws: seq<byte>, r: nat, bs: seq<byte>)
    requires Out(mem, e, ws, r, bs)
    ensures r + |bs| <= |mem| && mem[r..r + |bs|] == bs
  {
  }

  /** A string of the string area, by its place there. */
  lemma StringOut(mem: seq<byte>, e: nat, ws: seq<byte>, r: nat, bs: seq<byte>, at: nat, s: seq<byte>)
    requires Out(mem, e, ws, r, bs) && at + |s| + 1 <= |bs| && bs[at..at + |s| + 1] == s + [0] && 0 !in s
    ensures PointsAt(mem, LOW + r + at, s) && LOW + r + at < TOP
  {
    hide Out;
    OutText(mem, e, ws, r, bs);
    OutBounds(mem, e, ws, r, bs);
    SliceWithin(mem, r, bs, at, at + |s| + 1);
  }

  /** Entry `i` of a list of pointers. */
  lemma EntryOut(mem: seq<byte>, e: nat, ws: seq<byte>, r: nat, bs: seq<byte>, at: nat, ss: seq<seq<byte>>, i: nat)
    requires Out(mem, e, ws, r, bs) && i < |ss| && 0 !in ss[i]
    requires at + |Cat(ss)| <= |bs| && bs[at..at + |Cat(ss)|] == Cat(ss)
    ensures LOW + r + at + |Cat(ss[..i])| < TOP && PointsAt(mem, LOW + r + at + |Cat(ss[..i])|, ss[i])
  {
    hide Out, Cat, PointsAt;
    StringIn(ss, i);
    var a := |Cat(ss[..i])|;
    SliceWithin(bs, at, Cat(ss), a, a + |ss[i]| + 1);
    StringOut(mem, e, ws, r, bs, at + a, ss[i]);
  }

  lemma EntryAt(mem: seq<byte>, e: nat, ws: seq<nat>, r: nat, bs: seq<byte>, k: nat, at: nat, ss: seq<seq<byte>>,
                i: nat)
    requires Out(mem, e, WordsOf(ws), r, bs) && i < |ss| && k + i < |ws| && 0 !in ss[i]
    requires ws[k + i] == LOW + r + at + |Cat(ss[..i])|
    requires at + |Cat(ss)| <= |bs| && bs[at..at + |Cat(ss)|] == Cat(ss)
    ensures e + 4 * (k + i) + 4 <= |mem| && PointsAt(mem, StackWord(mem, e, k + i), ss[i])
  {
    hide Out, StackWord, PointsAt, Cat, WordsOf;
    EntryOut(mem, e, WordsOf(ws), r, bs, at, ss, i);
    WordOut(mem, e, ws, r, bs, k + i);
  }

  lemma ListOut(mem: seq<byte>, e: nat, ws: seq<nat>, r: nat, bs: seq<byte>, k: nat, at: nat, ss: seq<seq<byte>>)
    requires Out(mem, e, WordsOf(ws), r, bs) && k + |ss| < |ws|
    requires forall i :: 0 <= i < |ss| ==> ws[k + i] == LOW + r + at + |Cat(ss[..i])|
    requires ws[k + |ss|] == 0
    requires at + |Cat(ss)| <= |bs| && bs[at..at + |Cat(ss)|] == Cat(ss)
    requires forall i :: 0 <= i < |ss| ==> 0 !in ss[i]
    ensures ListAt(mem, e, k, ss)
  {
    hide Out, StackWord, PointsAt, Cat, WordsOf;
    WordOut(mem, e, ws, r, bs, k + |ss|);
    forall i | 0 <= i < |ss| ensures PointsAt(mem, StackWord(mem, e, k + i), ss[i]) {
      EntryAt(mem, e, ws, r, bs, k, at, ss, i);
    }
  }

  /** The words of `part` stand in `ws` from `k` on. */
  ghost predicate Part(ws: seq<nat>, k: nat, part: seq<nat>) {
    k + |part| <= |ws| && forall i :: 0 <= i < |part| ==> ws[k + i] == part[i]
  }

  lemma AuxSmall(p: Invocation, random: nat)
    requires InvocationOk(p) && random + 16 + |p.exe| + 1 < U32
    ensures forall w :: w in Auxv(p, random) ==> w < U32
    ensures Auxv(p, random)[29] == random
  {
    assert forall w :: w in AuxFirst(p) ==> w < U32;
    hide AuxFirst;
  }

  lemma AuxPieces(p: Invocation)
    ensures
      var x, n := AuxStrings(p), 16 + |p.exe| + 1;
      |x| == n + 5 && x[0..16] == RANDOM && x[16..n] == p.exe + [0] && x[n..n + 5] == [105, 54, 56, 54] + [0]
  {
  }

  lemma BytesOut(mem: seq<byte>, e: nat, ws: seq<byte>, r: nat, bs: seq<byte>, lo: nat, hi: nat)
    requires Out(mem, e, ws, r, bs) && lo <= hi <= |bs|
    ensures r + hi <= |mem| && mem[r + lo..r + hi] == bs[lo..hi]
  {
    OutText(mem, e, ws, r, bs);
    hide Out;
    SliceWithin(mem, r, bs, lo, hi);
  }

  lemma AuxText(mem: seq<byte>, e: nat, ws: seq<byte>, r: nat, bs: seq<byte>, at: nat, p: Invocation)
    requires 0 !in p.exe && Out(mem, e, ws, r, bs)
    requires at + |AuxStrings(p)| == |bs| && bs[at..at + |AuxStrings(p)|] == AuxStrings(p)
    ensures AuxTexts(mem, LOW + r + at, p)
  {
    hide Out, PointsAt, AuxStrings, RANDOM;
    var x, n := AuxStrings(p), 16 + |p.exe| + 1;
    AuxPieces(p);
    SliceWithin(bs, at, x, 0, 16);
    SliceWithin(bs, at, x, 16, n);
    SliceWithin(bs, at, x, n, n + 5);
    StringOut(mem, e, ws, r, bs, at + 16, p.exe);
    StringOut(mem, e, ws, r, bs, at + n, [105, 54, 56, 54]);
    BytesOut(mem, e, ws, r, bs, at, at + 16);
  }

  /** The auxiliary vector and its strings. */
  lemma AuxOut(mem: seq<byte>, e: nat, ws: seq<nat>, r: nat, bs: seq<byte>, k: nat, at: nat, p: Invocation)
    requires InvocationOk(p) && Out(mem, e, WordsOf(ws), r, bs)
    requires Part(ws, k, Auxv(p, LOW + r + at))
    requires at + |AuxStrings(p)| == |bs| && bs[at..at + |AuxStrings(p)|] == AuxStrings(p)
    ensures e + 4 * (k + 36) <= |mem| && AuxAt(mem, e, k, p)
  {
    hide Out, StackWord, AuxTexts, WordsOf, Auxv, AuxStrings;
    OutBounds(mem, e, WordsOf(ws), r, bs);
    var random := LOW + r + at;
    var aux := Auxv(p, random);
    AuxSmall(p, random);
    assert |WordsOf(ws)| == 4 * |ws|;
    forall i | 0 <= i < |aux| ensures StackWord(mem, e, k + i) == aux[i] {
      assert aux[i] in aux && ws[k + i] == aux[i];
      WordOut(mem, e, ws, r, bs, k + i);
    }
    assert Pairs(mem, e, k, aux);
    AuxText(mem, e, WordsOf(ws), r, bs, at, p);
  }

  lemma ZeroWord(mem: seq<byte>, e: nat, ws: seq<byte>, r: nat, bs: seq<byte>, k: nat)
    requires Out(mem, e, ws, r, bs) && |ws| <= 4 * k && e + 4 * k + 4 <= r
    ensures e + 4 * k + 4 <= |mem| && StackWord(mem, e, k) == 0
  {
  }

  lemma Aligned(p: Invocation)
    ensures Esp(p) % 16 == 0
  {
  }

  /** Where the lists and the auxiliary vector are in the words and the strings. */
  lemma VectorParts(p: Invocation)
    requires StringsAt(p) >= 0
    ensures
      var n, m, ws, r := |p.argv|, |p.envp|, Vector(p), StringsAt(p);
      var a, b, bs := |Cat(p.argv)|, |Cat(p.envp)|, Strings(p);
      && |ws| == 3 + n + m + 36 && ws[0] == n && ws[1 + n] == 0 && ws[2 + n + m] == 0
      && (forall i :: 0 <= i < n ==> ws[1 + i] == r + |Cat(p.argv[..i])|)
      && (forall i :: 0 <= i < m ==> ws[2 + n + i] == r + a + |Cat(p.envp[..i])|)
      && Part(ws, 3 + n + m, Auxv(p, r + a + b))
      && |bs| == a + b + |AuxStrings(p)|
      && bs[0..0 + a] == Cat(p.argv) && bs[a..a + b] == Cat(p.envp) &&
        bs[a + b..a + b + |AuxStrings(p)|] == AuxStrings(p)
  {
    hide Cat, Auxv, AuxStrings;
  }

  lemma Texts()
    ensures RANDOM == Ascii("notrandomdata!!!") && Ascii("i686") == [105, 54, 56, 54]
  {
  }

  lemma FirstValues(p: Invocation)
    ensures var x := AuxFirst(p);
      && x[1] == 0xbfeb_fbff && x[3] == 4096 && x[5] == 100 && x[7] == p.phdr && x[9] == 32 && x[11] == p.phnum
      && x[13] == p.base && x[15] == 0 && x[17] == p.entry && x[19] == x[21] == x[23] == x[25] == 179 && x[27] == 0
  {
  }

  lemma PairValues(p: Invocation, random: nat)
    ensures var x := Auxv(p, random);
      && x[1] == 0xbfeb_fbff && x[3] == 4096 && x[5] == 100 && x[7] == p.phdr && x[9] == 32 && x[11] == p.phnum
      && x[13] == p.base && x[15] == 0 && x[17] == p.entry && x[19] == x[21] == x[23] == x[25] == 179 && x[27] == 0
      && x[29] == random && x[31] == 0 && x[33] == random + 16 && x[35] == random + 16 + |p.exe| + 1
  {
    hide AuxFirst;
    FirstValues(p);
  }

  lemma TypeValues()
    ensures var t := Types();
      && t[0] == 16 && t[1] == 6 && t[2] == 17 && t[3] == 3 && t[4] == 4 && t[5] == 5 && t[6] == 7 && t[7] == 8
      && t[8] == 9 && t[9] == 11 && t[10] == 12 && t[11] == 13 && t[12] == 14 && t[13] == 23 && t[14] == 25
      && t[15] == 26 && t[16] == 31 && t[17] == 15
  {
  }

  lemma TypesHere(mem: seq<byte>, e: nat, k: nat, p: Invocation, random: nat)
    requires e + 4 * (k + 36) <= |mem| && Pairs(mem, e, k, Auxv(p, random))
    ensures TypesDiffer(mem, e, k)
  {
    hide Auxv, Types, StackWord;
    TypesAre(p, random);
    TypesOnce();
    forall i | 0 <= i < 18 ensures AuxType(mem, e, k, i) == Types()[i] != AT_NULL {
      assert Auxv(p, random)[2 * i] == Types()[i];
    }
  }

  /** Looked up by type, every entry is the one the program is to have. */
  lemma AuxReads(mem: seq<byte>, e: nat, k: nat, p: Invocation)
    requires e + 4 * (k + 36) <= |mem| && AuxAt(mem, e, k, p)
    ensures AuxFound(mem, e, k, p) && TypesDiffer(mem, e, k)
  {
    hide Auxv, Types, Ascii, RANDOM, Pairs, AuxValue, StackWord;
    var random := StackWord(mem, e, k + 29);
    forall j: nat | j < 18 ensures Entry(mem, e, k, Types()[j], Auxv(p, random)[2 * j + 1]) {
      PairFound(mem, e, k, p, random, j);
    }
    PairValues(p, random);
    TypeValues();
    Texts();
    TypesHere(mem, e, k, p, random);
  }

  /** What the two passes leave is what the ABI wants. */
  lemma AbiHolds(mem: seq<byte>, esp: int, p: Invocation)
    requires InvocationOk(p) && Fits(p) && esp == Esp(p) && StringsAt(p) >= LOW
    requires Out(mem, esp - LOW, WordsOf(Vector(p)), StringsAt(p) - LOW, Strings(p))
    ensures Abi(mem, esp, p)
  {
    hide Out, StackWord, PointsAt, Cat, WordsOf, AuxStrings, Auxv, AuxAt, AuxFound, TypesDiffer, ListAt, Vector,
      Strings;
    RoomFor(p);
    VectorParts(p);
    Aligned(p);
    var n, m, ws, bs := |p.argv|, |p.envp|, Vector(p), Strings(p);
    var e, r := esp - LOW, StringsAt(p) - LOW;
    var a, b := |Cat(p.argv)|, |Cat(p.envp)|;
    hide Esp, StringsAt;
    OutBounds(mem, e, WordsOf(ws), r, bs);
    WordOut(mem, e, ws, r, bs, 0);
    ListOut(mem, e, ws, r, bs, 1, 0, p.argv);
    ListOut(mem, e, ws, r, bs, 2 + n, a, p.envp);
    AuxOut(mem, e, ws, r, bs, 3 + n + m, a + b, p);
    AuxReads(mem, e, 3 + n + m, p);
    ZeroWord(mem, e, WordsOf(ws), r, bs, 3 + n + m + 36);
    ZeroWord(mem, e, WordsOf(ws), r, bs, 3 + n + m + 37);
  }

  /** The second pass. It ends exactly at the top, so the check at its end never fails. */
  method BuildStack(p: Invocation) returns (ok: bool, mem: seq<byte>, esp: int)
    requires InvocationOk(p) && Fits(p)
    ensures ok && esp == Esp(p)
    ensures StringsAt(p) >= LOW && Out(mem, esp - LOW, WordsOf(Vector(p)), StringsAt(p) - LOW, Strings(p))
    ensures Abi(mem, esp, p)
  {
    hide Cat, Pointers, Auxv, AuxStrings, Esp, Fits, Stack.Valid, Out;
    var strp;
    esp, strp := Sizes(p);
    RoomFor(p);
    var s := new Stack(esp, strp);
    s.PushWord(|p.argv|);
    s.PushList(p.argv);
    s.PushList(p.envp);
    s.PushAux(p);
    assert s.strings == Strings(p);
    assert s.words == Vector(p);
    mem := s.Result();
    ok := s.strpOut == TOP;
    hide Abi, Vector, Strings, StringsAt;
    AbiHolds(mem, esp, p);
  }
}
