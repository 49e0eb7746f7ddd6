/** run of rust/src/launch.rs: the outcomes and the written files, read back from the image. */
module LaunchRun {
  import opened Integers
  import opened Bytes
  import opened BundleRows
  import opened BundleDump
  import opened BundleWalk
  import opened Placement
  import opened HostRead

  datatype TestResult = TestResult(outcome: nat, outputs: seq<seq<byte>>)

  /** File `j` can be read: it is not for writing, or it has data and its size stays in the image. */
  ghost predicate Readable(b: Bundle, r: Dumped, m: seq<byte>, j: nat)
    requires OffsetsRight(b, r) && |m| == |r.image| && j < |Everything(b)|
  {
    assert FileOffsets(b, r, j);
    Everything(b)[j].access == ReadWrite ==>
      r.dataAt[j].Some? && r.dataAt[j].value + Word(m, RowOf(b, j) + 16) <= |m|
  }

  /** What the files from `lo` to `hi` that may be written hold, in order. */
  ghost function Outputs(b: Bundle, r: Dumped, m: seq<byte>, lo: nat, hi: nat): seq<seq<byte>>
    requires OffsetsRight(b, r) && |m| == |r.image| && lo <= hi <= |Everything(b)|
    requires forall j :: lo <= j < hi ==> Readable(b, r, m, j)
  {
    if lo == hi then []
    else
      assert Readable(b, r, m, hi - 1) && FileOffsets(b, r, hi - 1);
      var at := r.dataAt[hi - 1];
      Outputs(b, r, m, lo, hi - 1) +
      if Everything(b)[hi - 1].access == ReadWrite
      then [m[at.value..at.value + Word(m, RowOf(b, hi - 1) + 16)]] else []
  }

  /** The four bytes from the last to the first. */
  method ReadWord(m: seq<byte>, at: nat) returns (w: nat)
    requires at + 4 <= |m|
    ensures w == Word(m, at)
  {
    w := 0;
    for j := 0 to 4
      invariant w == if j == 0 then 0 else if j == 1 then m[at + 3] as int
        else if j == 2 then 0x100 * m[at + 3] as int + m[at + 2] as int
        else if j == 3 then 0x1_0000 * m[at + 3] as int + 0x100 * m[at + 2] as int + m[at + 1] as int
        else Word(m, at)
    {
      w := (w * 256 + m[at + 3 - j]) % U32;
    }
  }

  /** The files of one test. */
  method ReadOutputs(b: Bundle, r: Dumped, m: seq<byte>, lo: nat, fs: seq<File>) returns (ok: bool,
                     outputs: seq<seq<byte>>)
    requires OffsetsRight(b, r) && |m| == |r.image|
    requires lo + |fs| <= |Everything(b)| && Everything(b)[lo..lo + |fs|] == fs
    ensures ok <==> forall j :: lo <= j < lo + |fs| ==> Readable(b, r, m, j)
    ensures ok ==> outputs == Outputs(b, r, m, lo, lo + |fs|)
  {
    hide AllFiles, Word;
    outputs := [];
    for i := 0 to |fs|
      invariant forall j :: lo <= j < lo + i ==> Readable(b, r, m, j)
      invariant outputs == Outputs(b, r, m, lo, lo + i)
    {
      assert fs[i] == Everything(b)[lo + i] && FileOffsets(b, r, lo + i);
      if fs[i].access == ReadWrite {
        var sz := ReadWord(m, r.sizeAt[lo + i]);
        if r.dataAt[lo + i].None? || r.dataAt[lo + i].value + sz > |m| {
          assert !Readable(b, r, m, lo + i);
          return false, [];
        }
        outputs := outputs + [m[r.dataAt[lo + i].value..r.dataAt[lo + i].value + sz]];
      }
      assert Readable(b, r, m, lo + i);
    }
    ok := true;
  }

  ghost predicate TestReadable(b: Bundle, r: Dumped, m: seq<byte>, i: nat)
    requires OffsetsRight(b, r) && |m| == |r.image| && i < |b.tests|
  {
    var lo := Before(b.tests, i);
    lo + |b.tests[i].fs| <= |Everything(b)| &&
    forall j :: lo <= j < lo + |b.tests[i].fs| ==> Readable(b, r, m, j)
  }

  /** The files of every test but the first can be read. */
  ghost predicate AllReadable(b: Bundle, r: Dumped, m: seq<byte>, n: nat)
    requires OffsetsRight(b, r) && |m| == |r.image| && n <= |b.tests|
  {
    forall i :: 1 <= i < n ==> TestReadable(b, r, m, i)
  }

  /** What run returns for test `i`. */
  ghost function ResultOf(b: Bundle, r: Dumped, m: seq<byte>, i: nat): TestResult
    requires OffsetsRight(b, r) && |m| == |r.image| && i < |b.tests| && TestReadable(b, r, m, i)
  {
    var lo := Before(b.tests, i);
    TestResult(Word(m, 12 + ROW * i + 24), Outputs(b, r, m, lo, lo + |b.tests[i].fs|))
  }

  lemma OwnFiles(b: Bundle, i: nat)
    requires i < |b.tests|
    ensures
      var lo := Before(b.tests, i);
      lo + |b.tests[i].fs| <= |Everything(b)| && Everything(b)[lo..lo + |b.tests[i].fs|] == b.tests[i].fs
      && Before(b.tests, i + 1) == lo + |b.tests[i].fs|
  {
    RoundTrip.OwnSlice(b.tests, i);
    AllFilesNext(b.tests, i);
    hide AllFiles;
  }

  lemma NoneBefore(tests: seq<Test>)
    ensures Before(tests, 0) == 0
  {
  }

  /** run, from the image the machine gave back; it panics on a file that cannot be read. */
  method Run(b: Bundle, r: Dumped, m: seq<byte>) returns (results: Option<seq<TestResult>>)
    requires OffsetsRight(b, r) && |m| == |r.image| && b.tests != []
    ensures results.Some? <==> AllReadable(b, r, m, |b.tests|)
    ensures results.Some? ==> |results.value| == |b.tests| - 1
    ensures results.Some? ==> forall i :: 1 <= i < |b.tests| ==> results.value[i - 1] == ResultOf(b, r, m, i)
  {
    hide AllFiles, Before, Word, Outputs, Readable, Everything;
    var ans: seq<TestResult> := [];
    OwnFiles(b, 0);
    assert Before(b.tests, 0) == 0 by { NoneBefore(b.tests); }
    var k := |b.tests[0].fs|;
    for i := 1 to |b.tests|
      invariant k == Before(b.tests, i) && |ans| == i - 1 && AllReadable(b, r, m, i)
      invariant forall j :: 1 <= j < i ==> ans[j - 1] == ResultOf(b, r, m, j)
    {
      OwnFiles(b, i);
      var status := ReadWord(m, r.outcomeAt[i]);
      var ok, outputs := ReadOutputs(b, r, m, k, b.tests[i].fs);
      if !ok {
        assert !TestReadable(b, r, m, i);
        return None;
      }
      assert TestReadable(b, r, m, i);
      ans := ans + [TestResult(status, outputs)];
      k := k + |b.tests[i].fs|;
    }
    results := Some(ans);
  }

  // ---- what a run of the kernel may change ----

  predicate OutcomeByte(b: Bundle, x: nat) {
    12 <= x < 12 + ROW * |b.tests| && (x - 12) % ROW >= 24
  }

  predicate SizeByte(b: Bundle, x: nat) {
    RowOf(b, 0) <= x < RowOf(b, |Everything(b)|) && 16 <= (x - RowOf(b, 0)) % ROW < 20
  }

  predicate DataByte(b: Bundle, m: seq<byte>, j: nat, x: nat)
    requires j < |Everything(b)| && RowOf(b, j) + 16 <= |m|
  {
    Everything(b)[j].data.Some? &&
    Word(m, RowOf(b, j) + 12) <= x + LINEAR < Word(m, RowOf(b, j) + 12) + Capacity(Everything(b)[j])
  }

  /** From `m` to `m'` only outcomes, sizes and data change, and no size exceeds its capacity. */
  ghost predicate OnlyResults(b: Bundle, m: seq<byte>, m': seq<byte>) {
    && |m'| == |m| && RowOf(b, |Everything(b)|) <= |m|
    && (forall x :: 0 <= x < |m| && m'[x] != m[x] ==>
          OutcomeByte(b, x) || SizeByte(b, x) || exists j :: 0 <= j < |Everything(b)| && DataByte(b, m, j, x))
    && (forall j :: 0 <= j < |Everything(b)| ==> Word(m', RowOf(b, j) + 16) <= Capacity(Everything(b)[j]))
  }

  /** A word of the structures that is neither an outcome nor a size is not changed. */
  lemma StructKept(b: Bundle, m: seq<byte>, m': seq<byte>, p: nat)
    requires Separate(m, b) && OnlyResults(b, m, m') && p + 4 <= RowOf(b, |Everything(b)|)
    requires forall x :: p <= x < p + 4 ==> !OutcomeByte(b, x) && !SizeByte(b, x)
    ensures Word(m', p) == Word(m, p)
  {
    hide Word, AllFiles, Clear, FileAt;
    forall x | p <= x < p + 4 ensures m'[x] == m[x] {
      forall j | 0 <= j < |Everything(b)| ensures !DataByte(b, m, j, x) {
        assert Everything(b)[j].data.Some? ==> DataClear(m, b, j);
      }
    }
    assert m'[p..p + 4] == m[p..p + 4];
    WordAt(m', m, p, p);
  }

  lemma RowsIn(b: Bundle, m: seq<byte>, m': seq<byte>)
    requires OnlyResults(b, m, m')
    ensures RowOf(b, |Everything(b)|) <= |m| == |m'|
  {
  }

  lemma FileWordKept(b: Bundle, m: seq<byte>, m': seq<byte>, j: nat, k: nat)
    requires Separate(m, b) && OnlyResults(b, m, m') && j < |Everything(b)| && k < 7 && k != 4
    ensures RowOf(b, j) + 4 * k + 4 <= |m| && Word(m', RowOf(b, j) + 4 * k) == Word(m, RowOf(b, j) + 4 * k)
  {
    hide Separate, OnlyResults, AllFiles, Word;
    assert RowOf(b, |Everything(b)|) <= |m| by { hide *; RowsIn(b, m, m'); }
    StructKept(b, m, m', RowOf(b, j) + 4 * k);
  }

  /** A string behind the structures and clear of all data stays. */
  lemma StringKept(b: Bundle, m: seq<byte>, m': seq<byte>, q: nat, s: seq<byte>)
    requires OnlyResults(b, m, m') && Behind(m, b, q) && PointsTo(m, q, s) && Word(m', q) == Word(m, q)
    requires forall j :: 0 <= j < |Everything(b)| && Everything(b)[j].data.Some? ==>
      Clear(m, RowOf(b, j) + 12, Capacity(Everything(b)[j]), q, |s| + 1)
    ensures PointsTo(m', q, s)
  {
    hide AllFiles, Word, CutAtNul;
    var a, n := Word(m, q) - LINEAR, |CutAtNul(s)| + 1;
    forall x | a <= x < a + n ensures m'[x] == m[x] {
      assert forall j :: 0 <= j < |Everything(b)| ==> !DataByte(b, m, j, x);
    }
    assert m'[a..a + n] == m[a..a + n];
  }

  /** File `j` after a run: the same name, rights, place, capacity and successor. */
  ghost predicate FileSame(b: Bundle, m: seq<byte>, m': seq<byte>, j: nat)
    requires j < |Everything(b)|
  {
    var p := RowOf(b, j);
    && p + ROW <= |m| == |m'| && PointsTo(m', p, Everything(b)[j].name)
    && Word(m', p + 4) == Word(m, p + 4) && Word(m', p + 8) == Word(m, p + 8) && Word(m', p + 12) == Word(m, p + 12)
    && Word(m', p + 20) == Word(m, p + 20) && Word(m', p + 24) == Word(m, p + 24)
  }

  lemma FileKept(b: Bundle, m: seq<byte>, m': seq<byte>, j: nat)
    requires Separate(m, b) && OnlyResults(b, m, m') && j < |Everything(b)|
    ensures FileSame(b, m, m', j)
  {
    hide OnlyResults, AllFiles, Word, PointsTo, Clear, Inodes, DataAt;
    RowsIn(b, m, m');
    FileWordKept(b, m, m', j, 0);
    FileWordKept(b, m, m', j, 1);
    FileWordKept(b, m, m', j, 2);
    FileWordKept(b, m, m', j, 3);
    FileWordKept(b, m, m', j, 5);
    FileWordKept(b, m, m', j, 6);
    assert FileAt(m, RowOf(b, j), Everything(b)[j]);
    forall k | 0 <= k < |Everything(b)| && Everything(b)[k].data.Some?
      ensures Clear(m, RowOf(b, k) + 12, Capacity(Everything(b)[k]), RowOf(b, j), |Everything(b)[j].name| + 1)
    {
      assert DataClear(m, b, k);
    }
    StringKept(b, m, m', RowOf(b, j), Everything(b)[j].name);
  }

  /** Test `i` after a run: the same limits, names and file list; only its outcome may differ. */
  ghost predicate TestSame(b: Bundle, m: seq<byte>, m': seq<byte>, i: nat)
    requires i < |b.tests|
  {
    var p := 12 + ROW * i;
    && p + ROW <= |m| == |m'| && Word64(m', p) == b.tests[i].tl && Word(m', p + 8) == b.tests[i].ml
    && PointsTo(m', p + 12, b.tests[i].input) && PointsTo(m', p + 16, b.tests[i].output)
    && Word(m', p + 20) == Word(m, p + 20)
  }

  lemma TestWordKept(b: Bundle, m: seq<byte>, m': seq<byte>, i: nat, k: nat)
    requires Separate(m, b) && OnlyResults(b, m, m') && i < |b.tests| && k < 6
    ensures 12 + ROW * i + 4 * k + 4 <= |m| && Word(m', 12 + ROW * i + 4 * k) == Word(m, 12 + ROW * i + 4 * k)
  {
    hide Separate, OnlyResults, AllFiles, Word;
    RowsIn(b, m, m');
    StructKept(b, m, m', 12 + ROW * i + 4 * k);
  }

  lemma TestKept(b: Bundle, m: seq<byte>, m': seq<byte>, i: nat)
    requires Sees(m, b) && Separate(m, b) && OnlyResults(b, m, m') && i < |b.tests|
    ensures TestSame(b, m, m', i)
  {
    hide OnlyResults, AllFiles, Word, PointsTo, Clear, Inodes, FileAt, ListFrom;
    var p, u := 12 + ROW * i, b.tests[i];
    RowsIn(b, m, m');
    assert TestAt(m, p, u, b.files);
    TestWordKept(b, m, m', i, 0);
    TestWordKept(b, m, m', i, 1);
    TestWordKept(b, m, m', i, 2);
    TestWordKept(b, m, m', i, 3);
    TestWordKept(b, m, m', i, 4);
    TestWordKept(b, m, m', i, 5);
    forall k | 0 <= k < |Everything(b)| && Everything(b)[k].data.Some?
      ensures Clear(m, RowOf(b, k) + 12, Capacity(Everything(b)[k]), p + 12, |u.input| + 1)
      ensures Clear(m, RowOf(b, k) + 12, Capacity(Everything(b)[k]), p + 16, |u.output| + 1)
    {
      assert DataClear(m, b, k);
    }
    StringKept(b, m, m', p + 12, u.input);
    StringKept(b, m, m', p + 16, u.output);
  }

  /** What the kernel holds for file `j`: its first sz bytes. */
  ghost function KernelBytes(b: Bundle, m: seq<byte>, j: nat): seq<byte>
    requires RowOf(b, j) + ROW <= |m| && LINEAR <= Word(m, RowOf(b, j) + 12)
    requires Word(m, RowOf(b, j) + 12) - LINEAR + Word(m, RowOf(b, j) + 16) <= |m|
  {
    var at := Word(m, RowOf(b, j) + 12) - LINEAR;
    m[at..at + Word(m, RowOf(b, j) + 16)]
  }

  lemma SizeFits(b: Bundle, m: seq<byte>, m': seq<byte>, j: nat)
    requires OnlyResults(b, m, m') && j < |Everything(b)|
    ensures RowOf(b, j) + ROW <= |m'| == |m| && Word(m', RowOf(b, j) + 16) <= Capacity(Everything(b)[j])
  {
  }

  /** After a run that changed only results, the host can read a file exactly when it has data or is
      not for writing, and what it reads is what the kernel holds. */
  lemma ReadBack(b: Bundle, r: Dumped, m': seq<byte>, j: nat)
    requires Separate(r.image, b) && OffsetsRight(b, r) && OnlyResults(b, r.image, m') && j < |Everything(b)|
    ensures Readable(b, r, m', j) <==> Everything(b)[j].access == ReadOnly || Everything(b)[j].data.Some?
    ensures Everything(b)[j].data.Some? ==>
      && RowOf(b, j) + ROW <= |m'| && LINEAR <= Word(m', RowOf(b, j) + 12)
      && Word(m', RowOf(b, j) + 12) - LINEAR + Word(m', RowOf(b, j) + 16) <= |m'|
      && r.dataAt[j].Some? && r.dataAt[j].value + LINEAR == Word(m', RowOf(b, j) + 12)
      && KernelBytes(b, m', j) == m'[r.dataAt[j].value..r.dataAt[j].value + Word(m', RowOf(b, j) + 16)]
  {
    hide AllFiles, Word, PointsTo, Clear, Inodes, StringsBehind, OnlyResults;
    RowsIn(b, r.image, m');
    assert FileOffsets(b, r, j) && FileAt(r.image, RowOf(b, j), Everything(b)[j]);
    FileWordKept(b, r.image, m', j, 3);
    SizeFits(b, r.image, m', j);
  }

  /** run can give back a file: it is not for writing, or it has data. */
  predicate Returnable(f: File) {
    f.access == ReadOnly || f.data.Some?
  }

  lemma TestReturns(b: Bundle, r: Dumped, m': seq<byte>, i: nat)
    requires Separate(r.image, b) && OffsetsRight(b, r) && OnlyResults(b, r.image, m') && |m'| == |r.image|
    requires i < |b.tests|
    ensures TestReadable(b, r, m', i) <==> forall f :: f in b.tests[i].fs ==> Returnable(f)
  {
    hide Separate, OffsetsRight, OnlyResults, AllFiles, Everything, Readable, Before;
    OwnFiles(b, i);
    var lo, fs := Before(b.tests, i), b.tests[i].fs;
    forall j | lo <= j < lo + |fs|
      ensures Everything(b)[j] == fs[j - lo] && (Readable(b, r, m', j) <==> Returnable(fs[j - lo]))
    {
      assert Everything(b)[j] == Everything(b)[lo..lo + |fs|][j - lo];
      ReadBack(b, r, m', j);
    }
    forall f | f in fs && TestReadable(b, r, m', i) ensures Returnable(f) {
      var k :| 0 <= k < |fs| && fs[k] == f;
      assert Readable(b, r, m', lo + k);
    }
  }

  /** After such a run, run panics exactly when a test but the first has a file to write without data. */
  lemma RunReturns(b: Bundle, r: Dumped, m': seq<byte>)
    requires Separate(r.image, b) && OffsetsRight(b, r) && OnlyResults(b, r.image, m') && |m'| == |r.image|
    ensures AllReadable(b, r, m', |b.tests|) <==>
      forall i :: 1 <= i < |b.tests| ==> forall f :: f in b.tests[i].fs ==> Returnable(f)
  {
    hide Separate, OffsetsRight, OnlyResults, AllFiles, Everything, Readable, Before;
    forall i | 1 <= i < |b.tests|
      ensures TestReadable(b, r, m', i) <==> forall f :: f in b.tests[i].fs ==> Returnable(f)
    {
      TestReturns(b, r, m', i);
    }
  }

  /** How many of the files from `lo` to `hi` may be written. */
  ghost function WritableIn(b: Bundle, lo: nat, hi: nat): nat
    requires lo <= hi <= |Everything(b)|
  {
    if lo == hi then 0 else WritableIn(b, lo, hi - 1) + if Everything(b)[hi - 1].access == ReadWrite then 1 else 0
  }

  ghost predicate OutputAt(b: Bundle, r: Dumped, m': seq<byte>, lo: nat, hi: nat, j: nat)
    requires OffsetsRight(b, r) && |m'| == |r.image| && lo <= j < hi <= |Everything(b)|
    requires forall i :: lo <= i < hi ==> Readable(b, r, m', i)
  {
    var n, outs := WritableIn(b, lo, j), Outputs(b, r, m', lo, hi);
    && RowOf(b, j) + ROW <= |m'| && LINEAR <= Word(m', RowOf(b, j) + 12)
    && Word(m', RowOf(b, j) + 12) - LINEAR + Word(m', RowOf(b, j) + 16) <= |m'|
    && n < |outs| && outs[n] == KernelBytes(b, m', j)
  }

  /** One more file leaves the outputs so far in their places. */
  lemma OutputStays(b: Bundle, r: Dumped, m': seq<byte>, lo: nat, hi: nat, j: nat)
    requires OffsetsRight(b, r) && |m'| == |r.image| && lo <= j < hi < |Everything(b)|
    requires forall i :: lo <= i < hi + 1 ==> Readable(b, r, m', i)
    requires OutputAt(b, r, m', lo, hi, j)
    ensures OutputAt(b, r, m', lo, hi + 1, j)
  {
    hide OffsetsRight, Readable, Everything, WritableIn, RowOf, Word, KernelBytes;
    assert Outputs(b, r, m', lo, hi) <= Outputs(b, r, m', lo, hi + 1);
  }

  /** A writable file adds what the kernel holds of it. */
  lemma OutputLast(b: Bundle, r: Dumped, m': seq<byte>, lo: nat, hi: nat)
    requires Separate(r.image, b) && OffsetsRight(b, r) && OnlyResults(b, r.image, m') && |m'| == |r.image|
    requires lo <= hi < |Everything(b)| && forall j :: lo <= j < hi + 1 ==> Readable(b, r, m', j)
    requires Everything(b)[hi].access == ReadWrite && |Outputs(b, r, m', lo, hi)| == WritableIn(b, lo, hi)
    ensures OutputAt(b, r, m', lo, hi + 1, hi)
  {
    hide Separate, OnlyResults, AllFiles, Everything, WritableIn;
    ReadBack(b, r, m', hi);
  }

  /** The outputs of a test are the bytes the kernel holds for its writable files, each at its place
      among them, and nothing else. */
  lemma {:induction false} OutputsAre(b: Bundle, r: Dumped, m': seq<byte>, lo: nat, hi: nat)
    requires Separate(r.image, b) && OffsetsRight(b, r) && OnlyResults(b, r.image, m') && |m'| == |r.image|
    requires lo <= hi <= |Everything(b)| && forall j :: lo <= j < hi ==> Readable(b, r, m', j)
    ensures |Outputs(b, r, m', lo, hi)| == WritableIn(b, lo, hi)
    ensures forall j :: lo <= j < hi && Everything(b)[j].access == ReadWrite ==> OutputAt(b, r, m', lo, hi, j)
    decreases hi
  {
    hide Separate, OnlyResults, AllFiles, Everything, OutputAt;
    if lo < hi {
      OutputsAre(b, r, m', lo, hi - 1);
      if Everything(b)[hi - 1].access == ReadWrite {
        OutputLast(b, r, m', lo, hi - 1);
      }
      forall j | lo <= j < hi - 1 && Everything(b)[j].access == ReadWrite ensures OutputAt(b, r, m', lo, hi, j) {
        OutputStays(b, r, m', lo, hi - 1, j);
      }
    }
  }
}
