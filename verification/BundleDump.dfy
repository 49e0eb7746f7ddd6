/** Bundle::_dump: the head, the tests, the files of each test, the files every test sees. */
module BundleDump {
  import opened Integers
  import opened Bytes
  import opened Linker
  import opened BundleRows
  import opened FileLists

  datatype Bundle = Bundle(files: seq<File>, exe: seq<byte>, tests: seq<Test>)

  /** The files of the tests, in the order they are written. */
  function AllFiles(tests: seq<Test>): seq<File> {
    if tests == [] then [] else AllFiles(tests[..|tests| - 1]) + tests[|tests| - 1].fs
  }

  /** How many files are written before those of test `i`. */
  function Before(tests: seq<Test>, i: nat): nat
    requires i <= |tests|
  {
    |AllFiles(tests[..i])|
  }

  lemma AllFilesNext(tests: seq<Test>, i: nat)
    requires i < |tests|
    ensures AllFiles(tests[..i + 1]) == AllFiles(tests[..i]) + tests[i].fs
    ensures Before(tests, i + 1) == Before(tests, i) + |tests[i].fs|
  {
    var u := tests[..i + 1];
    assert u[..|u| - 1] == tests[..i];
  }

  /** The file list a test starts with: its own, or the common one. */
  function FsLink(own: Option<Key>, root: Option<Key>): Option<Key> {
    if own.Some? then own else root
  }

  predicate TestsLaid(s: Image, p: nat, tests: seq<Test>, root: Option<Key>, own: seq<Option<Key>>,
                      outcomes: seq<Key>) {
    && |own| == |outcomes| == |tests|
    && forall i :: 0 <= i < |tests| ==>
         (own[i].Some? <==> tests[i].fs != []) && TestLaid(s, p + ROW * i, tests[i], FsLink(own[i], root), outcomes[i])
  }

  /** The labels of the tests' own lists from test `k` on are kept for later. */
  ghost predicate Reserved(s: Image, own: seq<Option<Key>>, k: nat, root: Option<Key>) {
    && (root.Some? ==> Unset(s, root.value))
    && (forall i :: k <= i < |own| && own[i].Some? ==> Unset(s, own[i].value) && own[i] != root)
    && (forall i, j :: 0 <= i < j < |own| && own[i].Some? && own[j].Some? ==> own[i] != own[j])
  }

  lemma TestsGrow(s: Image, t: Image, p: nat, tests: seq<Test>, root: Option<Key>, own: seq<Option<Key>>,
                  outcomes: seq<Key>)
    requires TestsLaid(s, p, tests, root, own, outcomes) && Extends(s, t)
    ensures TestsLaid(t, p, tests, root, own, outcomes)
  {
    hide TestLaid, Extends;
    forall i | 0 <= i < |tests|
      ensures TestLaid(t, p + ROW * i, tests[i], FsLink(own[i], root), outcomes[i])
    {
      TestGrows(s, t, p + ROW * i, tests[i], FsLink(own[i], root), outcomes[i]);
    }
  }

  lemma TestsNext(s: Image, t: Image, p: nat, tests: seq<Test>, root: Option<Key>, own: seq<Option<Key>>,
                  outcomes: seq<Key>,
                  u: Test, fs: Option<Key>, o: Key)
    requires TestsLaid(s, p, tests, root, own, outcomes) && Extends(s, t)
    requires (fs.Some? <==> u.fs != []) && TestLaid(t, p + ROW * |tests|, u, FsLink(fs, root), o)
    ensures TestsLaid(t, p, tests + [u], root, own + [fs], outcomes + [o])
  {
    hide TestLaid, Extends;
    TestsGrow(s, t, p, tests, root, own, outcomes);
  }

  lemma ReservedNext(s: Image, t: Image, own: seq<Option<Key>>, root: Option<Key>, fs: Option<Key>)
    requires Reserved(s, own, 0, root) && Appends(s, t)
    requires fs.Some? ==> Unset(t, fs.value) && s.counter <= fs.value.n
    ensures Reserved(t, own + [fs], 0, root)
  {
  }

  lemma ExtendsSelf(s: Image)
    ensures Extends(s, s) && Appends(s, s)
  {
  }

  method DumpOneTest(d: Builder, u: Test, root: Option<Key>) returns (outcome: Key, fs: Option<Key>)
    requires d.Valid() && (root.Some? ==> Unset(d.S(), root.value))
    modifies d`out, d`refs, d`labels, d`counter
    ensures d.Valid() && Appends(old(d.S()), d.S()) && |d.out| == old(|d.out|) + ROW
    ensures TestLaid(d.S(), old(|d.out|), u, FsLink(fs, root), outcome) && (fs.Some? <==> u.fs != [])
    ensures fs.Some? ==> Unset(d.S(), fs.value) && old(d.counter) <= fs.value.n
  {
    hide Ok, Single, TestLaid, Extends;
    ghost var s := d.S();
    fs := None;
    if u.fs != [] {
      var l := d.GetLabel();
      fs := Some(l);
    }
    ghost var t := d.S();
    ExtendsSelf(s);
    outcome := DumpTest(d, u, FsLink(fs, root));
    AppendsTrans(s, t, d.S());
    CounterGrows(t, d.S());
  }

  method DumpTests(d: Builder, tests: seq<Test>, root: Option<Key>) returns (own: seq<Option<Key>>, outcomes: seq<Key>)
    requires d.Valid() && (root.Some? ==> Unset(d.S(), root.value))
    modifies d`out, d`refs, d`labels, d`counter
    ensures d.Valid() && Extends(old(d.S()), d.S()) && |d.out| == old(|d.out|) + ROW * |tests|
    ensures TestsLaid(d.S(), old(|d.out|), tests, root, own, outcomes) && Reserved(d.S(), own, 0, root)
  {
    hide Ok, Single, TestLaid, Extends, Builder.Valid;
    ghost var s := d.S();
    own, outcomes := [], [];
    ExtendsSelf(s);
    for i := 0 to |tests|
      invariant d.Valid() && Extends(s, d.S()) && |d.out| == |s.out| + ROW * i
      invariant TestsLaid(d.S(), |s.out|, tests[..i], root, own, outcomes) && Reserved(d.S(), own, 0, root)
    {
      ghost var t := d.S();
      var o, fs := DumpOneTest(d, tests[i], root);
      TestsNext(t, d.S(), |s.out|, tests[..i], root, own, outcomes, tests[i], fs, o);
      ReservedNext(t, d.S(), own, root, fs);
      Appended(t, d.S());
      ExtendsTrans(s, t, d.S());
      own, outcomes := own + [fs], outcomes + [o];
      assert tests[..i + 1] == tests[..i] + [tests[i]];
    }
    assert tests[..|tests|] == tests;
  }

  // ---- the lists ----

  /** The list of test `i` is in place. */
  ghost predicate ListAt(t: Image, p: nat, tests: seq<Test>, i: nat, own: seq<Option<Key>>, next: seq<Option<Key>>,
                         root: Option<Key>)
    requires i < |tests| && |own| == |tests|
  {
    own[i].Some? ==>
      && Labels(t, own[i].value, p + ROW * Before(tests, i))
      && Chained(t, p, Before(tests, i), Before(tests, i) + |tests[i].fs|, next, root)
  }

  /** Every link goes to a label that is set, or to the common list. */
  ghost predicate LinksSet(t: Image, next: seq<Option<Key>>, root: Option<Key>) {
    forall j :: 0 <= j < |next| && next[j].Some? ==> next[j] == root || next[j].value in t.labels
  }

  /** The lists of the first `k` tests are written, after state `s`. */
  ghost predicate ListsSoFar(s: Image, t: Image, k: nat, tests: seq<Test>, root: Option<Key>, own: seq<Option<Key>>,
                             labels: seq<FileLabels>, next: seq<Option<Key>>) {
    && k <= |tests| == |own| && Extends(s, t)
    && |t.out| == |s.out| + ROW * Before(tests, k)
    && FilesLaid(t, |s.out|, AllFiles(tests[..k]), labels, next) && DataApart(labels, 0, t.counter)
    && (forall i :: 0 <= i < k ==> ListAt(t, |s.out|, tests, i, own, next, root))
    && Reserved(t, own, k, root) && LinksSet(t, next, root)
  }

  lemma ListsStart(s: Image, tests: seq<Test>, root: Option<Key>, own: seq<Option<Key>>)
    requires |own| == |tests| && Reserved(s, own, 0, root)
    ensures ListsSoFar(s, s, 0, tests, root, own, [], [])
  {
    assert tests[..0] == [];
  }

  lemma ListsSkip(s: Image, t: Image, k: nat, tests: seq<Test>, root: Option<Key>, own: seq<Option<Key>>,
                  labels: seq<FileLabels>, next: seq<Option<Key>>)
    requires ListsSoFar(s, t, k, tests, root, own, labels, next) && k < |tests| && tests[k].fs == [] && own[k].None?
    ensures ListsSoFar(s, t, k + 1, tests, root, own, labels, next)
  {
    AllFilesNext(tests, k);
    assert AllFiles(tests[..k]) + [] == AllFiles(tests[..k]);
    hide FilesLaid, DataApart, LinksSet, Extends, AllFiles;
  }

  lemma ChainLonger(t: Image, u: Image, p: nat, lo: nat, hi: nat, next: seq<Option<Key>>, more: seq<Option<Key>>,
                    tail: Option<Key>)
    requires Chained(t, p, lo, hi, next, tail) && Extends(t, u)
    ensures Chained(u, p, lo, hi, next + more, tail)
  {
    forall j | lo <= j < hi - 1 ensures (next + more)[j].Some? && Labels(u, (next + more)[j].value, p + ROW * (j + 1)) {
      LabelGrows(t, u, next[j].value, p + ROW * (j + 1));
    }
  }

  lemma ListGrows(t: Image, u: Image, p: nat, tests: seq<Test>, i: nat, own: seq<Option<Key>>,
                  next: seq<Option<Key>>, more: seq<Option<Key>>, root: Option<Key>)
    requires i < |tests| && |own| == |tests| && ListAt(t, p, tests, i, own, next, root) && Extends(t, u)
    ensures ListAt(u, p, tests, i, own, next + more, root)
  {
    if own[i].Some? {
      LabelGrows(t, u, own[i].value, p + ROW * Before(tests, i));
      ChainLonger(t, u, p, Before(tests, i), Before(tests, i) + |tests[i].fs|, next, more, root);
    }
  }

  lemma LinksJoin(t: Image, u: Image, next: seq<Option<Key>>, more: seq<Option<Key>>, root: Option<Key>, p: nat,
                  tail: Option<Key>)
    requires LinksSet(t, next, root) && Extends(t, u) && Chained(u, p, 0, |more|, more, tail)
    requires tail == root || tail.None?
    ensures LinksSet(u, next + more, root)
  {
  }

  lemma ReservedAt(t: Image, u: Image, own: seq<Option<Key>>, k: nat, root: Option<Key>)
    requires Reserved(t, own, k, root) && k < |own| && own[k].Some? && AppendsAt(t, u, own[k].value)
    ensures Reserved(u, own, k + 1, root)
  {
  }

  lemma ListHere(t: Image, p: nat, tests: seq<Test>, i: nat, own: seq<Option<Key>>, next: seq<Option<Key>>,
                 root: Option<Key>)
    requires i < |tests| && |own| == |tests| && own[i].Some?
    requires Labels(t, own[i].value, p + ROW * Before(tests, i))
    requires Chained(t, p, Before(tests, i), Before(tests, i) + |tests[i].fs|, next, root)
    ensures ListAt(t, p, tests, i, own, next, root)
  {
  }

  /** One more test's list. */
  lemma ListsNext(s: Image, t: Image, u: Image, k: nat, tests: seq<Test>, root: Option<Key>, own: seq<Option<Key>>,
                  labels: seq<FileLabels>, next: seq<Option<Key>>, labels': seq<FileLabels>, next': seq<Option<Key>>)
    requires ListsSoFar(s, t, k, tests, root, own, labels, next) && k < |tests| && own[k].Some?
    requires ListDone(t, u, tests[k].fs, labels', next', own[k].value, root)
    ensures ListsSoFar(s, u, k + 1, tests, root, own, labels + labels', next + next')
  {
    hide FilesLaid, DataApart, Extends, Labels, Chained, AppendsAt, AllFiles, Reserved, ListAt, LinksSet;
    var p := |s.out|;
    AllFilesNext(tests, k);
    AppendsAtExtends(t, u, own[k].value);
    ExtendsTrans(s, t, u);
    FilesLength(t, p, AllFiles(tests[..k]), labels, next);
    FilesLength(u, |t.out|, tests[k].fs, labels', next');
    FilesJoin(t, u, p, |t.out|, AllFiles(tests[..k]), labels, next, tests[k].fs, labels', next');
    ApartJoin(labels, labels', 0, t.counter, u.counter);
    ChainMoves(u, p, |t.out|, |next'|, next, next', root);
    LinksJoin(t, u, next, next', root, |t.out|, root);
    ReservedAt(t, u, own, k, root);
    forall i | 0 <= i < k + 1 ensures ListAt(u, p, tests, i, own, next + next', root) {
      if i < k {
        ListGrows(t, u, p, tests, i, own, next, next', root);
      } else {
        ListHere(u, p, tests, k, own, next + next', root);
      }
    }
  }

  method DumpLists(d: Builder, tests: seq<Test>, root: Option<Key>, own: seq<Option<Key>>)
    returns (labels: seq<FileLabels>, ghost next: seq<Option<Key>>)
    requires d.Valid() && |own| == |tests| && Reserved(d.S(), own, 0, root)
    requires forall i :: 0 <= i < |tests| ==> (own[i].Some? <==> tests[i].fs != [])
    modifies d`out, d`refs, d`labels, d`counter
    ensures d.Valid() && ListsSoFar(old(d.S()), d.S(), |tests|, tests, root, own, labels, next)
  {
    hide Ok, Single, FilesLaid, DataApart, Extends, Builder.Valid, Before, ListAt, LinksSet, ListDone;
    ghost var s := d.S();
    labels, next := [], [];
    ListsStart(s, tests, root, own);
    for k := 0 to |tests|
      invariant d.Valid() && ListsSoFar(s, d.S(), k, tests, root, own, labels, next)
    {
      ghost var t := d.S();
      match own[k] {
        case None =>
          ListsSkip(s, t, k, tests, root, own, labels, next);
        case Some(l) =>
          var more;
          ghost var next';
          more, next' := DumpFiles(d, tests[k].fs, l, root);
          ListsNext(s, t, d.S(), k, tests, root, own, labels, next, more, next');
          labels, next := labels + more, next + next';
      }
    }
  }

  function HeadRow(b: Bundle): (r: seq<Cell>)
    requires b.tests != []
    ensures |r| == 2
  {
    [Fixed((|b.tests| - 1) % U32), Str(b.exe)]
  }

  /** Where the tests and the files start in what the writer wrote. */
  const TESTS := 8

  function Files(b: Bundle): nat {
    TESTS + ROW * |b.tests|
  }

  /** Everything written, nothing linked yet. */
  ghost predicate Complete(t: Image, b: Bundle, root: Option<Key>, own: seq<Option<Key>>, outcomes: seq<Key>,
                           labels: seq<FileLabels>, next: seq<Option<Key>>)
    requires b.tests != []
  {
    var p, n := Files(b), |AllFiles(b.tests)|;
    && Laid(t, 0, HeadRow(b)) && TestsLaid(t, TESTS, b.tests, root, own, outcomes)
    && FilesLaid(t, p, AllFiles(b.tests) + b.files, labels, next) && DataApart(labels, 0, t.counter)
    && |t.out| == p + ROW * (n + |b.files|)
    && (forall i :: 0 <= i < |b.tests| ==> ListAt(t, p, b.tests, i, own, next, root))
    && LinksSet(t, next, root)
    && if b.files == [] then root.None? || root.value !in t.labels
       else root.Some? && Labels(t, root.value, p + ROW * n) && Chained(t, p, n, n + |b.files|, next, None)
  }

  /** The head and the tests. */
  method DumpHead(d: Builder, b: Bundle) returns (root: Option<Key>, own: seq<Option<Key>>, outcomes: seq<Key>)
    requires d.Valid() && d.S() == Image(map[], map[], [], 0, FIRST_INODE) && b.tests != []
    modifies d`out, d`refs, d`labels, d`counter
    ensures d.Valid() && |d.out| == Files(b) && Reserved(d.S(), own, 0, root)
    ensures Laid(d.S(), 0, HeadRow(b)) && TestsLaid(d.S(), TESTS, b.tests, root, own, outcomes)
    ensures root.Some? <==> !(d.python && b.files == [])
  {
    hide Ok, Single, Holds, Extends, TestsLaid, Reserved, Builder.Valid;
    ghost var s := d.S();
    GrownStart(s);
    PutFixed(d, |b.tests| - 1);
    ghost var row, t := [Fixed((|b.tests| - 1) % U32)], d.S();
    GrownNext(s, s, t, [], row[0]);
    root := None;
    if !(d.python && b.files == []) {
      var l := d.GetLabel();
      root := Some(l);
    }
    ghost var u := d.S();
    ExtendsSelf(t);
    GrownSame(s, t, u, [] + row);
    PutText(d, b.exe);
    GrownNext(s, u, d.S(), [] + row, Str(b.exe));
    assert [] + row + [Str(b.exe)] == HeadRow(b);
    CounterGrows(u, d.S());
    ghost var v := d.S();
    own, outcomes := DumpTests(d, b.tests, root);
    LaidGrows(v, d.S(), 0, HeadRow(b));
  }

  lemma OwnLists(s: Image, p: nat, tests: seq<Test>, root: Option<Key>, own: seq<Option<Key>>, outcomes: seq<Key>)
    requires TestsLaid(s, p, tests, root, own, outcomes)
    ensures |own| == |tests| && forall i :: 0 <= i < |tests| ==> (own[i].Some? <==> tests[i].fs != [])
  {
  }

  lemma RootUnset(t: Image, own: seq<Option<Key>>, root: Option<Key>)
    requires Reserved(t, own, |own|, root) && root.Some?
    ensures Unset(t, root.value) && LinkOk(t, None)
  {
  }

  /** The tests' own lists are written, the common one is not. */
  ghost predicate ListsWhole(t: Image, b: Bundle, root: Option<Key>, own: seq<Option<Key>>, outcomes: seq<Key>,
                             labels: seq<FileLabels>, next: seq<Option<Key>>)
    requires b.tests != []
  {
    var p, n := Files(b), |AllFiles(b.tests)|;
    && Laid(t, 0, HeadRow(b)) && TestsLaid(t, TESTS, b.tests, root, own, outcomes)
    && FilesLaid(t, p, AllFiles(b.tests), labels, next) && DataApart(labels, 0, t.counter)
    && |t.out| == p + ROW * n && |own| == |b.tests|
    && (forall i :: 0 <= i < |b.tests| ==> ListAt(t, p, b.tests, i, own, next, root))
    && Reserved(t, own, |own|, root) && LinksSet(t, next, root)
  }

  lemma WholeLists(s: Image, t: Image, b: Bundle, root: Option<Key>, own: seq<Option<Key>>, outcomes: seq<Key>,
                   labels: seq<FileLabels>, next: seq<Option<Key>>)
    requires b.tests != [] && Laid(s, 0, HeadRow(b)) && TestsLaid(s, TESTS, b.tests, root, own, outcomes)
    requires |s.out| == Files(b) && ListsSoFar(s, t, |b.tests|, b.tests, root, own, labels, next)
    ensures ListsWhole(t, b, root, own, outcomes, labels, next)
    ensures b.files == [] ==> Complete(t, b, root, own, outcomes, labels, next)
  {
    hide Holds, Extends, TestsLaid, FilesLaid, DataApart, Laid, LinksSet, ListAt;
    assert b.tests[..|b.tests|] == b.tests && AllFiles(b.tests) + [] == AllFiles(b.tests);
    LaidGrows(s, t, 0, HeadRow(b));
    TestsGrow(s, t, TESTS, b.tests, root, own, outcomes);
  }

  lemma CompleteLists(t: Image, u: Image, b: Bundle, root: Option<Key>, own: seq<Option<Key>>, outcomes: seq<Key>,
                      labels: seq<FileLabels>, next: seq<Option<Key>>, labels': seq<FileLabels>,
                      next': seq<Option<Key>>)
    requires b.tests != [] && b.files != [] && root.Some? && ListsWhole(t, b, root, own, outcomes, labels, next)
    requires ListDone(t, u, b.files, labels', next', root.value, None)
    ensures Complete(u, b, root, own, outcomes, labels + labels', next + next')
  {
    hide Holds, Extends, TestsLaid, FilesLaid, DataApart, Laid, LinksSet, ListAt, Reserved, Chained, Labels,
      AppendsAt, AllFiles;
    var p, n := Files(b), |AllFiles(b.tests)|;
    AppendsAtExtends(t, u, root.value);
    LaidGrows(t, u, 0, HeadRow(b));
    TestsGrow(t, u, TESTS, b.tests, root, own, outcomes);
    FilesLength(t, p, AllFiles(b.tests), labels, next);
    FilesLength(u, |t.out|, b.files, labels', next');
    FilesJoin(t, u, p, |t.out|, AllFiles(b.tests), labels, next, b.files, labels', next');
    ApartJoin(labels, labels', 0, t.counter, u.counter);
    ChainMoves(u, p, |t.out|, |next'|, next, next', None);
    LinksJoin(t, u, next, next', root, |t.out|, None);
    forall i | 0 <= i < |b.tests| ensures ListAt(u, p, b.tests, i, own, next + next', root) {
      ListGrows(t, u, p, b.tests, i, own, next, next', root);
    }
  }

  /** Bundle::_dump up to resolve. */
  method DumpBody(d: Builder, b: Bundle)
    returns (outcomes: seq<Key>, labels: seq<FileLabels>, ghost root: Option<Key>, ghost own: seq<Option<Key>>,
      ghost next: seq<Option<Key>>)
    requires d.Valid() && d.S() == Image(map[], map[], [], 0, FIRST_INODE) && b.tests != []
    modifies d`out, d`refs, d`labels, d`counter
    ensures d.Valid() && Complete(d.S(), b, root, own, outcomes, labels, next)
    ensures root.Some? <==> !(d.python && b.files == [])
  {
    hide Ok, Single, Holds, Extends, TestsLaid, FilesLaid, DataApart, Reserved, Laid, LinksSet, Builder.Valid, ListAt;
    var r, o;
    r, o, outcomes := DumpHead(d, b);
    root, own := r, o;
    ghost var s := d.S();
    OwnLists(s, TESTS, b.tests, root, own, outcomes);
    labels, next := DumpLists(d, b.tests, r, o);
    ghost var t := d.S();
    WholeLists(s, t, b, root, own, outcomes, labels, next);
    if b.files != [] {
      var more;
      ghost var next';
      RootUnset(t, own, root);
      more, next' := DumpFiles(d, b.files, r.value, None);
      CompleteLists(t, d.S(), b, root, own, outcomes, labels, next, more, next');
      labels, next := labels + more, next + next';
    }
  }

  // ---- which labels are set ----

  /** resolve finds every label. */
  ghost predicate AllSet(t: Image) {
    forall p :: p in t.refs ==> t.refs[p] in t.labels
  }

  /** An open word of a row is one of its words with a label. */
  lemma OpenCell(t: Image, p: nat, cells: seq<Cell>, q: nat)
    requires Laid(t, p, cells) && Within(t.refs, |t.out|) && q in t.refs && p <= q < p + 4 * |cells|
    ensures (q - p) % 4 == 0 && Holds(t, q, cells[(q - p) / 4]) && !cells[(q - p) / 4].Fixed?
  {
    var i := (q - p) / 4;
    var c := p + 4 * i;
    assert Holds(t, c, cells[i]);
    assert q == c || q == c + 1 || q == c + 2 || q == c + 3;
    if !cells[i].Fixed? {
      assert c in t.refs && Apart(t.refs, c);
    }
  }

  lemma FileRefs(t: Image, p: nat, f: File, a: FileLabels, next: Option<Key>, q: nat)
    requires FileLaid(t, p, f, a, next) && Within(t.refs, |t.out|) && q in t.refs && p <= q < p + ROW
    ensures t.refs[q] in t.labels || next == Some(t.refs[q])
  {
    hide Laid, Within;
    OpenCell(t, p, FileRow(f, a.data, next), q);
  }

  lemma TestRefs(t: Image, p: nat, u: Test, fs: Option<Key>, o: Key, q: nat)
    requires TestLaid(t, p, u, fs, o) && Within(t.refs, |t.out|) && q in t.refs && p <= q < p + ROW
    ensures t.refs[q] in t.labels || fs == Some(t.refs[q])
  {
    hide Laid, Within;
    OpenCell(t, p, TestRow(u, fs), q);
  }

  lemma RefSet(t: Image, b: Bundle, root: Option<Key>, own: seq<Option<Key>>, outcomes: seq<Key>,
               labels: seq<FileLabels>, next: seq<Option<Key>>, q: nat)
    requires b.tests != [] && Complete(t, b, root, own, outcomes, labels, next) && Within(t.refs, |t.out|)
    requires q in t.refs
    ensures t.refs[q] in t.labels || root == Some(t.refs[q])
  {
    hide Laid, FileLaid, TestLaid, Chained, AllFiles, Before;
    assert q + 4 <= |t.out|;
    if q < TESTS {
      hide Within;
      OpenCell(t, 0, HeadRow(b), q);
    } else if q < Files(b) {
      var i := (q - TESTS) / ROW;
      assert TestLaid(t, TESTS + ROW * i, b.tests[i], FsLink(own[i], root), outcomes[i]);
      assert ListAt(t, Files(b), b.tests, i, own, next, root);
      TestRefs(t, TESTS + ROW * i, b.tests[i], FsLink(own[i], root), outcomes[i], q);
    } else {
      var j := (q - Files(b)) / ROW;
      assert FileLaid(t, Files(b) + ROW * j, (AllFiles(b.tests) + b.files)[j], labels[j], next[j]);
      FileRefs(t, Files(b) + ROW * j, (AllFiles(b.tests) + b.files)[j], labels[j], next[j], q);
    }
  }

  /** A word of a row with label `k`. */
  lemma LinkIn(t: Image, p: nat, cells: seq<Cell>, i: nat, k: Key)
    requires Laid(t, p, cells) && i < |cells| && cells[i] == Link(k)
    ensures p + 4 * i in t.refs && t.refs[p + 4 * i] == k
  {
  }

  /** The common list is named by the first test, or by the last of its files. */
  lemma RootNamed(t: Image, b: Bundle, root: Option<Key>, own: seq<Option<Key>>, outcomes: seq<Key>,
                  labels: seq<FileLabels>, next: seq<Option<Key>>) returns (p: nat)
    requires b.tests != [] && Complete(t, b, root, own, outcomes, labels, next) && root.Some?
    ensures p in t.refs && t.refs[p] == root.value
  {
    hide Laid, Holds;
    assert TestLaid(t, TESTS + ROW * 0, b.tests[0], FsLink(own[0], root), outcomes[0]);
    if b.tests[0].fs == [] {
      p := TESTS + 20;
      LinkIn(t, TESTS, TestRow(b.tests[0], root), 5, root.value);
    } else {
      assert ListAt(t, Files(b), b.tests, 0, own, next, root);
      AllFilesNext(b.tests, 0);
      var j := Before(b.tests, 0) + |b.tests[0].fs| - 1;
      var f := (AllFiles(b.tests) + b.files)[j];
      assert FileLaid(t, Files(b) + ROW * j, f, labels[j], next[j]);
      p := Files(b) + ROW * j + 24;
      LinkIn(t, Files(b) + ROW * j, FileRow(f, labels[j].data, next[j]), 6, root.value);
    }
  }

  /** resolve panics exactly when there is no common file, and the writer is not the Python one. */
  lemma SetExactly(t: Image, b: Bundle, root: Option<Key>, own: seq<Option<Key>>, outcomes: seq<Key>,
                   labels: seq<FileLabels>, next: seq<Option<Key>>)
    requires b.tests != [] && Complete(t, b, root, own, outcomes, labels, next) && Within(t.refs, |t.out|)
    ensures AllSet(t) <==> root.None? || b.files != []
  {
    if root.None? || b.files != [] {
      forall q | q in t.refs ensures t.refs[q] in t.labels {
        RefSet(t, b, root, own, outcomes, labels, next, q);
      }
    } else {
      var p := RootNamed(t, b, root, own, outcomes, labels, next);
    }
  }
}
