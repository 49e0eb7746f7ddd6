/** The lists of files in the bundle: rows linked by their last word. */
module FileLists {
  import opened Bytes
  import opened Linker
  import opened BundleRows

  /** `t` extends `s` and gives a label to `l`, and to no other number handed out before. */
  predicate AppendsAt(s: Image, t: Image, l: Key) {
    Extends(s, t) && forall k :: k in t.labels && k !in s.labels ==> k == l || k.Text? || s.counter <= k.n
  }

  lemma AppendsAtTrans(s: Image, t: Image, u: Image, l: Key, m: Key)
    requires AppendsAt(s, t, l) && AppendsAt(t, u, m) && (m == l || (m.Num? && s.counter <= m.n))
    ensures AppendsAt(s, u, l)
  {
    ExtendsTrans(s, t, u);
  }

  lemma AppendsAtExtends(s: Image, t: Image, l: Key)
    requires AppendsAt(s, t, l)
    ensures Extends(s, t) && s.counter <= t.counter
  {
  }

  /** `next[j]` is the label in the last word of row `j`. */
  predicate FilesLaid(s: Image, p: nat, fs: seq<File>, labels: seq<FileLabels>, next: seq<Option<Key>>) {
    && |labels| == |next| == |fs|
    && forall j :: 0 <= j < |fs| ==> FileLaid(s, p + ROW * j, fs[j], labels[j], next[j])
  }

  /** Rows `lo` to `hi` are linked one to the next, the last one to `tail`. */
  predicate Chained(s: Image, p: nat, lo: nat, hi: nat, next: seq<Option<Key>>, tail: Option<Key>)
  {
    && lo < hi <= |next| && next[hi - 1] == tail
    && forall j :: lo <= j < hi - 1 ==> next[j].Some? && Labels(s, next[j].value, p + ROW * (j + 1))
  }

  /** Each row with data has a label of its own for it, handed out between `lo` and `hi`. */
  predicate DataApart(labels: seq<FileLabels>, lo: nat, hi: nat) {
    && (forall j :: 0 <= j < |labels| && labels[j].data.Some? ==>
          labels[j].data.value.Num? && lo <= labels[j].data.value.n < hi)
    && (forall i, j :: 0 <= i < j < |labels| && labels[i].data.Some? && labels[j].data.Some? ==>
          labels[i].data != labels[j].data)
  }

  lemma FilesGrow(s: Image, t: Image, p: nat, fs: seq<File>, labels: seq<FileLabels>, next: seq<Option<Key>>)
    requires FilesLaid(s, p, fs, labels, next) && Extends(s, t)
    ensures FilesLaid(t, p, fs, labels, next)
  {
    hide FileLaid, Extends;
    forall j | 0 <= j < |fs| ensures FileLaid(t, p + ROW * j, fs[j], labels[j], next[j]) {
      FileGrows(s, t, p + ROW * j, fs[j], labels[j], next[j]);
    }
  }

  lemma FilesNext(s: Image, t: Image, p: nat, fs: seq<File>, labels: seq<FileLabels>, next: seq<Option<Key>>, f: File,
                  a: FileLabels, n: Option<Key>)
    requires FilesLaid(s, p, fs, labels, next) && Extends(s, t) && FileLaid(t, p + ROW * |fs|, f, a, n)
    ensures FilesLaid(t, p, fs + [f], labels + [a], next + [n])
  {
    hide FileLaid, Extends;
    FilesGrow(s, t, p, fs, labels, next);
  }

  lemma FilesJoin(s: Image, t: Image, p: nat, q: nat, fs: seq<File>, labels: seq<FileLabels>, next: seq<Option<Key>>,
                  gs: seq<File>, labels': seq<FileLabels>, next': seq<Option<Key>>)
    requires FilesLaid(s, p, fs, labels, next) && Extends(s, t) && FilesLaid(t, q, gs, labels', next')
    requires q == p + ROW * |fs|
    ensures FilesLaid(t, p, fs + gs, labels + labels', next + next')
  {
    hide FileLaid, Extends;
    FilesGrow(s, t, p, fs, labels, next);
    forall j | 0 <= j < |fs + gs|
      ensures FileLaid(t, p + ROW * j, (fs + gs)[j], (labels + labels')[j], (next + next')[j])
    {
      if j >= |fs| {
        var k := j - |fs|;
        assert FileLaid(t, q + ROW * k, gs[k], labels'[k], next'[k]);
      }
    }
  }

  lemma ChainMoves(t: Image, p: nat, q: nat, n: nat, before: seq<Option<Key>>, next: seq<Option<Key>>,
                   tail: Option<Key>)
    requires Chained(t, q, 0, n, next, tail) && q == p + ROW * |before| && |next| == n
    ensures Chained(t, p, |before|, |before| + n, before + next, tail)
  {
    forall j | |before| <= j < |before| + n - 1
      ensures (before + next)[j].Some? && Labels(t, (before + next)[j].value, p + ROW * (j + 1))
    {
      var k := j - |before|;
      assert next[k].Some? && Labels(t, next[k].value, q + ROW * (k + 1));
    }
  }

  lemma ApartJoin(labels: seq<FileLabels>, labels': seq<FileLabels>, lo: nat, mid: nat, hi: nat)
    requires DataApart(labels, lo, mid) && DataApart(labels', mid, hi) && lo <= mid <= hi
    ensures DataApart(labels + labels', lo, hi)
  {
  }

  lemma ApartOne(a: FileLabels, lo: nat, hi: nat)
    requires a.data.Some? ==> a.data.value.Num? && lo <= a.data.value.n < hi
    ensures DataApart([a], lo, hi)
  {
  }

  ghost predicate Unset(s: Image, k: Key) {
    k.Num? && k.n < s.counter && k !in s.labels
  }

  /** A file under label `l`. */
  method DumpLast(d: Builder, f: File, l: Key, tail: Option<Key>) returns (a: FileLabels)
    requires d.Valid() && Unset(d.S(), l) && LinkOk(d.S(), tail)
    modifies d`out, d`refs, d`labels, d`counter
    ensures d.Valid() && AppendsAt(old(d.S()), d.S(), l) && |d.out| == old(|d.out|) + ROW
    ensures Labels(d.S(), l, old(|d.out|)) && FileLaid(d.S(), old(|d.out|), f, a, tail)
    ensures DataApart([a], old(d.counter), d.counter)
  {
    hide Ok, Single, FileLaid, DataApart, Extends;
    ghost var s := d.S();
    d.SetLabel(l);
    ghost var t := d.S();
    a := DumpFile(d, f, tail);
    ApartOne(a, s.counter, d.counter);
    ExtendsTrans(s, t, d.S());
    LabelGrows(t, d.S(), l, |s.out|);
  }

  /** A file under label `l`, and a new label for the file behind it. */
  method DumpLinked(d: Builder, f: File, l: Key) returns (a: FileLabels, next: Key)
    requires d.Valid() && Unset(d.S(), l)
    modifies d`out, d`refs, d`labels, d`counter
    ensures d.Valid() && AppendsAt(old(d.S()), d.S(), l) && |d.out| == old(|d.out|) + ROW
    ensures Labels(d.S(), l, old(|d.out|)) && FileLaid(d.S(), old(|d.out|), f, a, Some(next))
    ensures DataApart([a], old(d.counter), d.counter)
    ensures Unset(d.S(), next) && old(d.counter) <= next.n
  {
    hide Ok, Single, FileLaid, DataApart, Extends;
    ghost var s := d.S();
    d.SetLabel(l);
    ghost var t := d.S();
    next := d.GetLabel();
    ghost var u := d.S();
    a := DumpFile(d, f, Some(next));
    ApartOne(a, s.counter, d.counter);
    ExtendsTrans(s, t, u);
    ExtendsTrans(s, u, d.S());
    LabelGrows(t, u, l, |s.out|);
    LabelGrows(u, d.S(), l, |s.out|);
    CounterGrows(u, d.S());
  }

  /** A list begun at `s` stands at `t`: the rows of `fs` are there, `l` is the label of the next. */
  ghost predicate ListSoFar(s: Image, t: Image, fs: seq<File>, labels: seq<FileLabels>, next: seq<Option<Key>>,
                            head: Key, l: Key) {
    && AppendsAt(s, t, head) && |t.out| == |s.out| + ROW * |fs|
    && FilesLaid(t, |s.out|, fs, labels, next) && DataApart(labels, s.counter, t.counter)
    && Unset(t, l)
    && (fs == [] ==> l == head)
    && (fs != [] ==> l.n >= s.counter && Labels(t, head, |s.out|) && Chained(t, |s.out|, 0, |fs|, next, Some(l)))
  }

  /** The whole list is there. */
  ghost predicate ListDone(s: Image, t: Image, fs: seq<File>, labels: seq<FileLabels>, next: seq<Option<Key>>,
                           head: Key, tail: Option<Key>) {
    && AppendsAt(s, t, head) && |t.out| == |s.out| + ROW * |fs|
    && FilesLaid(t, |s.out|, fs, labels, next) && DataApart(labels, s.counter, t.counter)
    && Labels(t, head, |s.out|) && Chained(t, |s.out|, 0, |fs|, next, tail)
  }

  lemma ChainNext(t: Image, u: Image, p: nat, next: seq<Option<Key>>, l: Key, n: Option<Key>)
    requires next == [] || Chained(t, p, 0, |next|, next, Some(l))
    requires Extends(t, u) && Labels(u, l, p + ROW * |next|)
    ensures Chained(u, p, 0, |next| + 1, next + [n], n)
  {
    forall j | 0 <= j < |next| ensures (next + [n])[j].Some? && Labels(u, (next + [n])[j].value, p + ROW * (j + 1)) {
      if j < |next| - 1 {
        LabelGrows(t, u, next[j].value, p + ROW * (j + 1));
      }
    }
  }

  lemma FilesLength(s: Image, p: nat, fs: seq<File>, labels: seq<FileLabels>, next: seq<Option<Key>>)
    requires FilesLaid(s, p, fs, labels, next)
    ensures |labels| == |next| == |fs|
  {
  }

  /** One more row, under the label kept for it. */
  lemma ListNext(s: Image, t: Image, u: Image, fs: seq<File>, labels: seq<FileLabels>, next: seq<Option<Key>>,
                 head: Key, l: Key, f: File, a: FileLabels, n: Option<Key>)
    requires ListSoFar(s, t, fs, labels, next, head, l) && AppendsAt(t, u, l) && |u.out| == |t.out| + ROW
    requires Labels(u, l, |t.out|) && FileLaid(u, |t.out|, f, a, n) && DataApart([a], t.counter, u.counter)
    ensures ListDone(s, u, fs + [f], labels + [a], next + [n], head, n)
  {
    hide FileLaid, DataApart, Extends, Labels, Chained, AppendsAt, FilesLaid;
    AppendsAtExtends(s, t, head);
    AppendsAtExtends(t, u, l);
    AppendsAtTrans(s, t, u, head, l);
    FilesNext(t, u, |s.out|, fs, labels, next, f, a, n);
    ApartJoin(labels, [a], s.counter, t.counter, u.counter);
    FilesLength(t, |s.out|, fs, labels, next);
    ChainNext(t, u, |s.out|, next, l, n);
    if fs != [] {
      LabelGrows(t, u, head, |s.out|);
    }
  }

  lemma ListStart(s: Image, head: Key)
    requires Unset(s, head)
    ensures ListSoFar(s, s, [], [], [], head, head)
  {
  }

  lemma LinkKept(s: Image, t: Image, l: Key, k: Option<Key>)
    requires LinkOk(s, k) && AppendsAt(s, t, l) && (l in t.labels ==> t.labels[l].Addr?)
    ensures LinkOk(t, k)
  {
  }

  /** The files of a list: the label of each row but the last is in the row before it. */
  method DumpFiles(d: Builder, fs: seq<File>, head: Key, tail: Option<Key>)
    returns (labels: seq<FileLabels>, ghost next: seq<Option<Key>>)
    requires d.Valid() && fs != [] && Unset(d.S(), head) && LinkOk(d.S(), tail)
    modifies d`out, d`refs, d`labels, d`counter
    ensures d.Valid() && ListDone(old(d.S()), d.S(), fs, labels, next, head, tail)
  {
    hide Ok, Single, FileLaid, DataApart, Extends, Chained, FilesLaid;
    ghost var s := d.S();
    var l := head;
    labels, next := [], [];
    ListStart(s, head);
    for fi := 0 to |fs| - 1
      invariant d.Valid() && ListSoFar(s, d.S(), fs[..fi], labels, next, head, l) && LinkOk(d.S(), tail)
    {
      ghost var t, m := d.S(), l;
      var a;
      a, l := DumpLinked(d, fs[fi], l);
      ListNext(s, t, d.S(), fs[..fi], labels, next, head, m, fs[fi], a, Some(l));
      labels, next := labels + [a], next + [Some(l)];
      assert fs[..fi + 1] == fs[..fi] + [fs[fi]];
      AppendsAtExtends(s, t, head);
      LinkKept(t, d.S(), m, tail);
    }
    ghost var t, m := d.S(), l;
    var a := DumpLast(d, fs[|fs| - 1], l, tail);
    ListNext(s, t, d.S(), fs[..|fs| - 1], labels, next, head, m, fs[|fs| - 1], a, tail);
    labels, next := labels + [a], next + [tail];
    assert fs == fs[..|fs| - 1] + [fs[|fs| - 1]];
  }
}
