/** The image writer of rust/src/bundle.rs and python/bundle.py: bytes are appended, words that hold
    labels are left open, and resolve fills them in, placing strings and data at the end on the way. */
module Linker {
  import opened Integers
  import opened Bytes

  /** The linear address of the first byte after the size word of the image. */
  const BASE := 0xc100_0004

  const FIRST_INODE := 179

  /** Labels are numbers; the Python writer names a string by its contents. */
  datatype Key = Num(n: nat) | Text(s: seq<byte>)

  datatype Label =
    | Addr(at: nat)
    | Blob(data: seq<byte>, q: nat)
    | Inode

  /** The fields of the writer. `refs` gives the label of each open word, by offset in `out`. */
  datatype Image = Image(labels: map<Key, Label>, refs: map<nat, Key>, out: seq<byte>, counter: nat, inode: nat)

  /** Byte `i` lies in an open word. */
  predicate Open(refs: map<nat, Key>, i: int) {
    i in refs || i - 1 in refs || i - 2 in refs || i - 3 in refs
  }

  predicate Apart(refs: map<nat, Key>, p: nat) {
    p - 3 !in refs && p - 2 !in refs && p - 1 !in refs && p + 1 !in refs && p + 2 !in refs && p + 3 !in refs
  }

  predicate Within(refs: map<nat, Key>, n: nat) {
    forall p :: p in refs ==> p + 4 <= n && Apart(refs, p)
  }

  predicate KeyOk(k: Key, counter: nat) {
    k.Num? ==> k.n < counter
  }

  predicate LabelOk(k: Key, l: Label) {
    && (l.Blob? ==> l.q == 1 || l.q == 4)
    && (k.Text? ==> l == Blob(k.s + [0], 1))
  }

  /** What holds of the writer until resolve is called. */
  predicate Ok(b: Image) {
    && Within(b.refs, |b.out|)
    && (forall p :: p in b.refs ==> KeyOk(b.refs[p], b.counter))
    && (forall k :: k in b.labels ==> KeyOk(k, b.counter) && LabelOk(k, b.labels[k]))
    && b.inode == FIRST_INODE
  }

  /** No label for an inode number stands in two words. */
  predicate Single(b: Image) {
    forall p, q :: p in b.refs && q in b.refs && p != q && b.refs[p] == b.refs[q] && b.refs[p] in b.labels ==>
      !b.labels[b.refs[p]].Inode?
  }

  /** `t` is `s` after more writing: nothing written, named or opened before is changed. */
  predicate Extends(s: Image, t: Image) {
    && s.out <= t.out && s.counter <= t.counter && s.inode == t.inode
    && (forall p :: p in s.refs ==> p in t.refs && t.refs[p] == s.refs[p])
    && (forall p :: p in t.refs && p !in s.refs ==> |s.out| <= p)
    && (forall k :: k in s.labels ==> k in t.labels && t.labels[k] == s.labels[k])
  }

  lemma ExtendsTrans(s: Image, t: Image, u: Image)
    requires Extends(s, t) && Extends(t, u)
    ensures Extends(s, u)
  {
  }

  /** `t` extends `s`, and gives no label to a number handed out before. */
  predicate Appends(s: Image, t: Image) {
    Extends(s, t) && forall k :: k in t.labels && k !in s.labels ==> k.Text? || s.counter <= k.n
  }

  lemma AppendsTrans(s: Image, t: Image, u: Image)
    requires Appends(s, t) && Appends(t, u)
    ensures Appends(s, u)
  {
    ExtendsTrans(s, t, u);
  }

  // ---- what the methods of the writer do ----

  function Written(b: Image, data: seq<byte>): Image {
    b.(out := b.out + data)
  }

  function Opened(b: Image, k: Key): Image {
    b.(refs := b.refs[|b.out| := k], out := b.out + Zeros(4))
  }

  function Labelled(b: Image, k: Key, l: Label): Image {
    b.(labels := b.labels[k := l])
  }

  function Here(b: Image): Label {
    Addr(|b.out| + BASE)
  }

  function Counted(b: Image): Image {
    b.(counter := b.counter + 1)
  }

  lemma WrittenOk(b: Image, data: seq<byte>)
    requires Ok(b) && Single(b)
    ensures Ok(Written(b, data)) && Single(Written(b, data)) && Extends(b, Written(b, data))
  {
  }

  lemma RefsBelow(b: Image)
    requires Ok(b)
    ensures |b.out| !in b.refs
  {
  }

  lemma OpenedKeys(b: Image, k: Key)
    requires Ok(b) && KeyOk(k, b.counter)
    ensures forall p :: p in Opened(b, k).refs ==> KeyOk(Opened(b, k).refs[p], b.counter)
    ensures Extends(b, Opened(b, k))
  {
    hide Within, LabelOk, KeyOk;
    forall p | p in Opened(b, k).refs ensures KeyOk(Opened(b, k).refs[p], b.counter) {
      assert p in b.refs ==> KeyOk(b.refs[p], b.counter);
    }
    assert |b.out| !in b.refs by { RefsBelow(b); }
  }

  lemma OpenedSingle(b: Image, k: Key)
    requires Single(b) && |b.out| !in b.refs && (k in b.labels && b.labels[k].Inode? ==> k !in b.refs.Values)
    ensures Single(Opened(b, k))
  {
    assert forall p :: p in b.refs ==> b.refs[p] in b.refs.Values;
  }

  lemma OpenedWithin(refs: map<nat, Key>, n: nat, k: Key)
    requires Within(refs, n)
    ensures n !in refs && Within(refs[n := k], n + 4)
  {
    var u := refs[n := k];
    forall p | p in u ensures p + 4 <= n + 4 && Apart(u, p) {
      assert p in refs ==> Apart(refs, p) && p + 4 <= n;
    }
  }

  lemma OpenedOk(b: Image, k: Key)
    requires Ok(b) && Single(b) && KeyOk(k, b.counter)
    requires k in b.labels && b.labels[k].Inode? ==> k !in b.refs.Values
    ensures Ok(Opened(b, k)) && Single(Opened(b, k)) && Extends(b, Opened(b, k))
  {
    OpenedWithin(b.refs, |b.out|, k);
    OpenedSingle(b, k);
    OpenedKeys(b, k);
    hide Within, Single, LabelOk, KeyOk;
  }

  lemma CountedOk(b: Image)
    requires Ok(b) && Single(b)
    ensures Ok(Counted(b)) && Single(Counted(b)) && Extends(b, Counted(b))
    ensures Num(b.counter) !in b.labels && Num(b.counter) !in b.refs.Values
  {
    assert forall p :: p in b.refs ==> KeyOk(b.refs[p], b.counter);
  }

  lemma LabelledOk(b: Image, k: Key, l: Label)
    requires Ok(b) && Single(b) && KeyOk(k, b.counter) && LabelOk(k, l)
    requires k in b.labels ==> b.labels[k] == l
    requires l.Inode? ==> k !in b.refs.Values
    ensures Ok(Labelled(b, k, l)) && Single(Labelled(b, k, l)) && Extends(b, Labelled(b, k, l))
  {
    assert forall p :: p in b.refs ==> b.refs[p] in b.refs.Values;
  }

  // ---- resolve ----

  function Padding(n: nat, q: nat): nat
    requires q > 0
  {
    (q - n % q) % q
  }

  lemma PaddingAligns(n: nat, q: nat)
    requires q == 1 || q == 4
    ensures Padding(n, q) < q && (n + Padding(n, q)) % q == 0
  {
  }

  /** The word at `p` becomes `v`. */
  function Put(out: seq<byte>, p: nat, v: nat): (r: seq<byte>)
    requires p + 4 <= |out|
    ensures |r| == |out|
  {
    out[..p] + Le(v, 4) + out[p + 4..]
  }

  lemma PutWord(out: seq<byte>, p: nat, v: nat)
    requires p + 4 <= |out|
    ensures Word(Put(out, p, v), p) == v % U32
    ensures forall i :: 0 <= i < |out| && !(p <= i < p + 4) ==> Put(out, p, v)[i] == out[i]
  {
    LeWord(v);
    assert Put(out, p, v)[p..p + 4] == Le(v, 4)[0..4];
    WordAt(Put(out, p, v), Le(v, 4), p, 0);
  }

  /** The bytes of label `k` go to the end, aligned, and the label becomes their address. */
  function Place(b: Image, k: Key): Image
    requires k in b.labels && b.labels[k].Blob? && b.labels[k].q > 0
  {
    var end := b.out + Zeros(Padding(|b.out|, b.labels[k].q));
    b.(labels := b.labels[k := Addr(|end| + BASE)], out := end + b.labels[k].data)
  }

  /** The body of the loop in resolve, for the open word at `p`. Python also writes the inode number
      down as the label's value. */
  function Step(b: Image, p: nat, python: bool): Image
    requires p in b.refs && b.refs[p] in b.labels && p + 4 <= |b.out|
    requires b.labels[b.refs[p]].Blob? ==> b.labels[b.refs[p]].q > 0
  {
    var k := b.refs[p];
    match b.labels[k]
    case Addr(a) => b.(out := Put(b.out, p, a))
    case Blob(_, _) => var u := Place(b, k); u.(out := Put(u.out, p, u.labels[k].at))
    case Inode =>
      b.(labels := if python then b.labels[k := Addr(b.inode)] else b.labels,
         out := Put(b.out, p, b.inode), inode := b.inode + 1)
  }

  /** Label `k`, open in `s`, has been placed in `t` behind everything `s` wrote. */
  predicate Placed(s: Image, t: Image, k: Key)
    requires k in s.labels && s.labels[k].Blob? && k in t.labels
  {
    && t.labels[k].Addr?
    && var d := t.labels[k].at - BASE;
    && |s.out| <= d && d + |s.labels[k].data| <= |t.out|
    && t.out[d..d + |s.labels[k].data|] == s.labels[k].data
    && (s.labels[k].q > 0 ==> d % s.labels[k].q == 0)
  }

  predicate LabelGoing(s: Image, t: Image, k: Key)
    requires k in s.labels && k in t.labels
  {
    match s.labels[k]
    case Addr(_) => t.labels[k] == s.labels[k]
    case Blob(_, _) => t.labels[k] == s.labels[k] || Placed(s, t, k)
    case Inode => t.labels[k].Inode? || t.labels[k].Addr?
  }

  /** Two pieces placed lie apart. */
  predicate Disjoint(s: Image, t: Image, k: Key, l: Key)
    requires k in s.labels && s.labels[k].Blob? && k in t.labels
    requires l in s.labels && s.labels[l].Blob? && l in t.labels
  {
    t.labels[k].Addr? && t.labels[l].Addr? ==>
      || t.labels[k].at + |s.labels[k].data| <= t.labels[l].at
      || t.labels[l].at + |s.labels[l].data| <= t.labels[k].at
  }

  /** The open word at `p` of `s` is filled in at `t`. */
  predicate Filled(s: Image, t: Image, p: nat)
    requires p in s.refs
  {
    && s.refs[p] in s.labels && s.refs[p] in t.labels && p + 4 <= |t.out|
    && match s.labels[s.refs[p]]
       case Addr(a) => Word(t.out, p) == a % U32
       case Blob(_, _) => t.labels[s.refs[p]].Addr? && Word(t.out, p) == t.labels[s.refs[p]].at % U32
       case Inode => FIRST_INODE <= Word(t.out, p) < t.inode
  }

  predicate IsInode(s: Image, p: nat) {
    p in s.refs && s.refs[p] in s.labels && s.labels[s.refs[p]].Inode?
  }

  predicate LabelsGoing(s: Image, t: Image) {
    && t.labels.Keys == s.labels.Keys
    && (forall k :: k in s.labels ==> LabelGoing(s, t, k))
    && (forall k, l :: k in s.labels && l in s.labels && k != l && s.labels[k].Blob? && s.labels[l].Blob? ==>
          Disjoint(s, t, k, l))
  }

  /** The labels for inode numbers still to be given out. */
  ghost predicate Pending(s: Image, t: Image, done: set<nat>) {
    forall p :: p !in done && IsInode(s, p) ==> s.refs[p] in t.labels && t.labels[s.refs[p]].Inode?
  }

  /** What is in `t` when the words left open do not matter. */
  ghost predicate Base(s: Image, t: Image) {
    && t.refs == s.refs && |s.out| <= |t.out| && LabelsGoing(s, t)
    && (forall i :: 0 <= i < |s.out| && !Open(s.refs, i) ==> t.out[i] == s.out[i])
  }

  /** The open words of `done` are filled in, no two with the same inode number. */
  ghost predicate FilledIn(s: Image, t: Image, done: set<nat>) {
    && (forall p :: p in done ==> p in s.refs && Filled(s, t, p))
    && (forall p, q :: p in done && q in done && p != q && IsInode(s, p) && IsInode(s, q) ==>
          Word(t.out, p) != Word(t.out, q))
  }

  /** resolve stands at `t` with the open words of `done` filled in. */
  ghost predicate Linking(s: Image, t: Image, done: set<nat>) {
    && Base(s, t) && FilledIn(s, t, done) && Pending(s, t, done)
    && FIRST_INODE <= t.inode <= FIRST_INODE + |done|
  }

  lemma LinkingStart(s: Image)
    requires Ok(s)
    ensures Linking(s, s, {})
  {
  }

  function Offsets(n: nat): (r: set<nat>)
    ensures |r| == n && forall i: nat :: i in r <==> i < n
  {
    if n == 0 then {} else Offsets(n - 1) + {n - 1}
  }

  /** There are no more open words than bytes. */
  lemma RefsFit(refs: map<nat, Key>, n: nat, done: set<nat>)
    requires Within(refs, n) && forall p :: p in done ==> p in refs
    ensures |done| <= n
  {
    assert done <= Offsets(n) && Offsets(n) == done + (Offsets(n) - done);
  }

  /** Filling in the word at `p` disturbs neither the other open words nor anything placed. */
  lemma PutKeeps(s: Image, t: Image, p: nat, v: nat, q: nat)
    requires Within(s.refs, |s.out|) && |s.out| <= |t.out| && p in s.refs && q in s.refs && q != p
    ensures Word(Put(t.out, p, v), q) == Word(t.out, q)
  {
    PutWord(t.out, p, v);
    assert Apart(s.refs, p);
  }

  lemma PutPlaced(s: Image, t: Image, p: nat, v: nat, k: Key)
    requires Within(s.refs, |s.out|) && |s.out| <= |t.out| && p in s.refs
    requires k in s.labels && s.labels[k].Blob? && k in t.labels && Placed(s, t, k)
    ensures Placed(s, t.(out := Put(t.out, p, v)), k)
  {
    var d, n := t.labels[k].at - BASE, |s.labels[k].data|;
    assert p + 4 <= d;
    PutWord(t.out, p, v);
    assert Put(t.out, p, v)[d..d + n] == t.out[d..d + n];
  }

  lemma PutLabels(s: Image, t: Image, p: nat, v: nat)
    requires Within(s.refs, |s.out|) && |s.out| <= |t.out| && p in s.refs && LabelsGoing(s, t)
    ensures LabelsGoing(s, t.(out := Put(t.out, p, v)))
  {
    hide Put;
    assert p + 4 <= |t.out|;
    var u := t.(out := Put(t.out, p, v));
    forall k | k in s.labels ensures LabelGoing(s, u, k) {
      if s.labels[k].Blob? && t.labels[k] != s.labels[k] {
        PutPlaced(s, t, p, v, k);
      }
    }
  }

  /** The value `v` suits the label of the open word at `p`. */
  ghost predicate Suits(s: Image, t: Image, done: set<nat>, p: nat, v: nat) {
    && p in s.refs && p !in done && s.refs[p] in s.labels && s.refs[p] in t.labels
    && match s.labels[s.refs[p]]
       case Addr(a) => v == a
       case Blob(_, _) => t.labels[s.refs[p]] == Addr(v)
       case Inode =>
         && FIRST_INODE <= v < t.inode && v < U32
         && forall q :: q in done && IsInode(s, q) ==> Filled(s, t, q) && Word(t.out, q) < v
  }

  lemma PutBase(s: Image, t: Image, p: nat, v: nat)
    requires Within(s.refs, |s.out|) && Base(s, t) && p in s.refs
    ensures p + 4 <= |t.out| && Base(s, t.(out := Put(t.out, p, v)))
  {
    PutWord(t.out, p, v);
    PutLabels(s, t, p, v);
    hide Put, LabelsGoing;
  }

  lemma InPrefix(s: Image, t: Image, p: nat)
    requires Within(s.refs, |s.out|) && p in s.refs && |s.out| <= |t.out|
    ensures p + 4 <= |t.out|
  {
  }

  /** A word filled in with what its label is worth. */
  lemma PutFilled(s: Image, t: Image, done: set<nat>, p: nat, v: nat)
    requires Within(s.refs, |s.out|) && |s.out| <= |t.out| && Suits(s, t, done, p, v) && FilledIn(s, t, done)
    ensures p + 4 <= |t.out| && FilledIn(s, t.(out := Put(t.out, p, v)), done + {p})
  {
    hide Put, Word, Within;
    InPrefix(s, t, p);
    var u := t.(out := Put(t.out, p, v));
    PutWord(t.out, p, v);
    forall q | q in done ensures Filled(s, u, q) && Word(u.out, q) == Word(t.out, q) {
      InPrefix(s, t, q);
      PutKeeps(s, t, p, v, q);
    }
  }

  /** Labels and bytes may be added at the end, and inode numbers used up. */
  lemma FilledGrows(s: Image, t: Image, u: Image, done: set<nat>)
    requires FilledIn(s, t, done) && t.out <= u.out && t.inode <= u.inode
    requires forall p :: p in done ==>
      s.refs[p] in u.labels && (s.labels[s.refs[p]].Blob? ==> u.labels[s.refs[p]] == t.labels[s.refs[p]])
    ensures FilledIn(s, u, done)
  {
    forall p | p in done ensures Filled(s, u, p) && Word(u.out, p) == Word(t.out, p) {
      assert Filled(s, t, p);
    }
  }

  lemma PlacedGrows(s: Image, t: Image, u: Image, k: Key)
    requires k in s.labels && s.labels[k].Blob? && k in t.labels && Placed(s, t, k)
    requires t.out <= u.out && k in u.labels && u.labels[k] == t.labels[k]
    ensures Placed(s, u, k)
  {
    var d := t.labels[k].at - BASE;
    assert u.out[d..d + |s.labels[k].data|] == t.out[d..d + |s.labels[k].data|];
  }

  /** A label placed at `d`, behind everything there is. */
  lemma PlaceLabels(s: Image, t: Image, u: Image, k: Key, d: nat)
    requires LabelsGoing(s, t) && t.out <= u.out && |s.out| <= |t.out| <= d && k in s.labels && t.labels[k].Blob?
    requires u.labels == t.labels[k := Addr(d + BASE)]
    requires d + |t.labels[k].data| == |u.out| && u.out[d..] == t.labels[k].data
    requires t.labels[k].q > 0 ==> d % t.labels[k].q == 0
    ensures LabelsGoing(s, u)
  {
    assert LabelGoing(s, t, k) && u.out[d..d + |t.labels[k].data|] == u.out[d..];
    forall l | l in s.labels ensures LabelGoing(s, u, l) {
      assert LabelGoing(s, t, l);
      if l != k && s.labels[l].Blob? && t.labels[l] != s.labels[l] {
        PlacedGrows(s, t, u, l);
      }
    }
    forall l, m | l in s.labels && m in s.labels && l != m && s.labels[l].Blob? && s.labels[m].Blob?
      ensures Disjoint(s, u, l, m)
    {
      assert LabelGoing(s, t, l) && LabelGoing(s, t, m) && Disjoint(s, t, l, m);
    }
  }

  lemma PlaceFits(s: Image, t: Image, k: Key)
    requires Ok(s) && Base(s, t) && k in s.labels && t.labels[k].Blob?
    ensures t.labels[k].q > 0 && t.out <= Place(t, k).out && Place(t, k).labels[k].Addr? && Base(s, Place(t, k))
  {
    assert LabelGoing(s, t, k) && LabelOk(k, s.labels[k]);
    var q := t.labels[k].q;
    PaddingAligns(|t.out|, q);
    var u := Place(t, k);
    PlaceLabels(s, t, u, k, |t.out| + Padding(|t.out|, q));
    hide LabelsGoing;
  }

  lemma LabelsAt(s: Image, t: Image, k: Key)
    requires LabelsGoing(s, t) && k in s.labels
    ensures k in t.labels && LabelGoing(s, t, k)
  {
  }

  lemma SuitsNew(s: Image, t: Image, done: set<nat>, p: nat, v: nat)
    requires Suits(s, t, done, p, v) && Base(s, t)
    ensures p in s.refs && p !in done && |s.out| <= |t.out|
  {
  }

  /** With everything placed as at `u`, the word at `p` may be filled in. */
  lemma PutLinks(s: Image, u: Image, done: set<nat>, p: nat, v: nat)
    requires Within(s.refs, |s.out|) && Base(s, u) && FilledIn(s, u, done) && Suits(s, u, done, p, v)
    requires Pending(s, u, done + {p}) && FIRST_INODE <= u.inode <= FIRST_INODE + |done| + 1
    ensures p + 4 <= |u.out| && Linking(s, u.(out := Put(u.out, p, v)), done + {p})
  {
    hide Within, Base, FilledIn, Suits, Put;
    SuitsNew(s, u, done, p, v);
    PutBase(s, u, p, v);
    PutFilled(s, u, done, p, v);
  }

  lemma StepBytes(s: Image, t: Image, done: set<nat>, p: nat, python: bool)
    requires Ok(s) && Linking(s, t, done) && p in s.refs && p !in done && s.refs[p] in s.labels
    requires t.labels[s.refs[p]].Blob?
    ensures p + 4 <= |t.out| && t.labels[s.refs[p]].q > 0 && Linking(s, Step(t, p, python), done + {p})
  {
    hide LabelsGoing, Within, LabelOk, Put, Placed, Word;
    var k := s.refs[p];
    InPrefix(s, t, p);
    LabelsAt(s, t, k);
    PlaceFits(s, t, k);
    var u := Place(t, k);
    FilledGrows(s, t, u, done);
    assert Pending(s, u, done + {p});
    PutLinks(s, u, done, p, u.labels[k].at);
  }

  lemma StepAddr(s: Image, t: Image, done: set<nat>, p: nat, python: bool)
    requires Ok(s) && Linking(s, t, done) && p in s.refs && p !in done && s.refs[p] in s.labels
    requires t.labels[s.refs[p]].Addr?
    ensures p + 4 <= |t.out| && Linking(s, Step(t, p, python), done + {p})
  {
    hide LabelsGoing, Within, LabelOk, Put, Placed;
    LabelsAt(s, t, s.refs[p]);
    PutLinks(s, t, done, p, t.labels[s.refs[p]].at);
  }

  lemma InodeNew(s: Image, t: Image, u: Image, done: set<nat>, p: nat)
    requires Single(s) && FilledIn(s, t, done) && Pending(s, t, done) && p in s.refs && p !in done
    requires s.refs[p] in s.labels && s.labels[s.refs[p]].Inode? && FIRST_INODE <= t.inode < U32
    requires u.out == t.out && u.inode == t.inode + 1 && t.labels.Keys == s.labels.Keys
    requires u.labels == t.labels || exists n :: u.labels == t.labels[s.refs[p] := Addr(n)]
    ensures Pending(s, u, done + {p}) && Suits(s, u, done, p, t.inode) && FilledIn(s, u, done)
  {
    FilledGrows(s, t, u, done);
    forall q | q in done && IsInode(s, q) ensures Filled(s, u, q) && Word(u.out, q) < t.inode {
      assert Filled(s, t, q);
    }
  }

  lemma InodeLabels(s: Image, t: Image, u: Image, k: Key)
    requires LabelsGoing(s, t) && k in s.labels && s.labels[k].Inode? && u.out == t.out
    requires u.labels == t.labels || exists n :: u.labels == t.labels[k := Addr(n)]
    ensures LabelsGoing(s, u)
  {
    forall l | l in s.labels ensures LabelGoing(s, u, l) {
      assert LabelGoing(s, t, l);
    }
    forall l, m | l in s.labels && m in s.labels && l != m && s.labels[l].Blob? && s.labels[m].Blob?
      ensures Disjoint(s, u, l, m)
    {
      assert Disjoint(s, t, l, m);
    }
  }

  lemma StepInode(s: Image, t: Image, done: set<nat>, p: nat, python: bool)
    requires Ok(s) && Single(s) && Linking(s, t, done) && p in s.refs && p !in done && s.refs[p] in s.labels
    requires t.labels[s.refs[p]].Inode? && FIRST_INODE + |done| < U32
    ensures p + 4 <= |t.out| && Linking(s, Step(t, p, python), done + {p})
  {
    hide LabelsGoing, Within, LabelOk, Put, Word, FilledIn;
    var k := s.refs[p];
    InPrefix(s, t, p);
    LabelsAt(s, t, k);
    var u := t.(labels := if python then t.labels[k := Addr(t.inode)] else t.labels, inode := t.inode + 1);
    InodeLabels(s, t, u, k);
    InodeNew(s, t, u, done, p);
    PutLinks(s, u, done, p, t.inode);
  }

  /** One turn of resolve keeps its invariant, whichever open word is next. */
  lemma StepLinks(s: Image, t: Image, done: set<nat>, p: nat, python: bool)
    requires Ok(s) && Single(s) && Linking(s, t, done) && p in s.refs && p !in done && s.refs[p] in s.labels
    requires |s.out| + BASE <= U32
    ensures p + 4 <= |t.out| && (t.labels[s.refs[p]].Blob? ==> t.labels[s.refs[p]].q > 0)
    ensures Linking(s, Step(t, p, python), done + {p})
  {
    RefsFit(s.refs, |s.out|, done);
    hide LabelsGoing, Single, FilledIn, Ok, Pending, Step;
    match t.labels[s.refs[p]]
    case Addr(_) => StepAddr(s, t, done, p, python);
    case Blob(_, _) => StepBytes(s, t, done, p, python);
    case Inode => StepInode(s, t, done, p, python);
  }

  /** resolve is over: every open word is filled in. */
  ghost predicate Linked(s: Image, t: Image) {
    Base(s, t) && FilledIn(s, t, s.refs.Keys)
  }

  lemma LinkingLabels(s: Image, t: Image, done: set<nat>)
    requires Linking(s, t, done)
    ensures t.refs == s.refs && t.labels.Keys == s.labels.Keys
  {
  }

  lemma Multiple(d: int, q: nat)
    ensures d >= 1 ==> d * q >= q
    ensures d <= -1 ==> d * q <= 0 - q
  {
    if d >= 1 {
      assert (d - 1) * q >= 0;
    } else if d <= -1 {
      assert (-1 - d) * q >= 0;
    }
  }

  lemma Remainder(x: nat, q: nat, a: nat, r: nat)
    requires r < q && x == a * q + r
    ensures x % q == r
  {
    var b, s := x / q, x % q;
    assert (a - b) * q == s - r;
    Multiple(a - b, q);
  }

  lemma PaddingLeft(n: nat, q: nat, k: nat)
    requires q > 0 && k <= Padding(n, q)
    ensures (n + k) % q == 0 <==> k == Padding(n, q)
  {
    var a, r := n / q, n % q;
    if r == 0 {
      Remainder(q, q, 1, 0);
    } else {
      Remainder(q - r, q, 0, q - r);
      if r + k == q {
        Remainder(n + k, q, a + 1, 0);
      } else {
        Remainder(n + k, q, a, r + k);
      }
    }
  }

  class Builder {
    var labels: map<Key, Label>
    var refs: map<nat, Key>
    var out: seq<byte>
    var counter: nat
    var inode: nat
    /** The writer is the one of python/bundle.py. */
    const python: bool

    ghost function S(): Image
      reads this
    {
      Image(labels, refs, out, counter, inode)
    }

    ghost predicate Valid()
      reads this
    {
      Ok(S()) && Single(S())
    }

    constructor (py: bool)
      ensures python == py && S() == Image(map[], map[], [], 0, FIRST_INODE)
      ensures Valid()
    {
      labels, refs, out, counter, inode, python := map[], map[], [], 0, FIRST_INODE, py;
    }

    method Write(data: seq<byte>)
      requires Valid()
      modifies this`out
      ensures Valid() && Extends(old(S()), S()) && S() == Written(old(S()), data)
    {
      WrittenOk(S(), data);
      out := out + data;
    }

    method Align(q: nat)
      requires q > 0
      modifies this`out
      ensures out == old(out) + Zeros(Padding(old(|out|), q))
    {
      ghost var n := |out|;
      ghost var k := 0;
      while |out| % q != 0
        invariant k <= Padding(n, q) && out == old(out) + Zeros(k) && |out| == n + k
        decreases Padding(n, q) - k
      {
        PaddingLeft(n, q, k);
        out := out + [0];
        k := k + 1;
      }
      PaddingLeft(n, q, k);
    }

    method WriteLabel(k: Key)
      requires Valid() && KeyOk(k, counter)
      requires k in labels && labels[k].Inode? ==> k !in refs.Values
      modifies this`refs, this`out
      ensures Valid() && Extends(old(S()), S()) && S() == Opened(old(S()), k)
    {
      hide Ok, Single, Extends, KeyOk;
      ghost var b, o := S(), out;
      OpenedOk(b, k);
      refs := refs[|out| := k];
      for i := 0 to 4
        invariant out == o + Zeros(i) && refs == b.refs[|o| := k]
      {
        out := out + [0];
      }
      assert S() == Opened(b, k);
    }

    method GetLabel() returns (k: Key)
      requires Valid()
      modifies this`counter
      ensures Valid() && Extends(old(S()), S()) && S() == Counted(old(S()))
      ensures k == Num(old(counter)) && k !in labels && k !in refs.Values
    {
      CountedOk(S());
      k := Num(counter);
      counter := counter + 1;
    }

    method SetLabel(k: Key)
      requires Valid() && k.Num? && k !in labels && KeyOk(k, counter)
      modifies this`labels
      ensures Valid() && Extends(old(S()), S()) && S() == Labelled(old(S()), k, Here(old(S())))
    {
      LabelledOk(S(), k, Here(S()));
      labels := labels[k := Addr(|out| + BASE)];
    }

    /** A label for a string: a new number, or in Python the string itself. */
    method SetLabelString(text: seq<byte>) returns (k: Key)
      requires Valid()
      modifies this`labels, this`counter
      ensures Valid() && Appends(old(S()), S())
      ensures refs == old(refs) && out == old(out)
      ensures k in labels && labels[k] == Blob(text + [0], 1) && KeyOk(k, counter)
    {
      if python {
        k := Text(text);
        LabelledOk(S(), k, Blob(text + [0], 1));
      } else {
        k := GetLabel();
        LabelledOk(S(), k, Blob(text + [0], 1));
        ExtendsTrans(old(S()), S(), Labelled(S(), k, Blob(text + [0], 1)));
      }
      labels := labels[k := Blob(text + [0], 1)];
    }

    method SetLabelBytes(data: seq<byte>, q: nat) returns (k: Key)
      requires Valid() && (q == 1 || q == 4)
      modifies this`labels, this`counter
      ensures Valid() && Extends(old(S()), S())
      ensures S() == Labelled(Counted(old(S())), k, Blob(data, q)) && k == Num(old(counter))
    {
      k := GetLabel();
      LabelledOk(S(), k, Blob(data, q));
      ExtendsTrans(old(S()), S(), Labelled(S(), k, Blob(data, q)));
      labels := labels[k := Blob(data, q)];
    }

    method SetLabelInode() returns (k: Key)
      requires Valid()
      modifies this`labels, this`counter
      ensures Valid() && Extends(old(S()), S())
      ensures S() == Labelled(Counted(old(S())), k, Inode) && k == Num(old(counter)) && k !in refs.Values
    {
      k := GetLabel();
      LabelledOk(S(), k, Inode);
      ExtendsTrans(old(S()), S(), Labelled(S(), k, Inode));
      labels := labels[k := Inode];
    }

    /** The low byte of `v` is written, and `v` shifted, four times. */
    method Patch(p: nat, v: nat)
      requires p + 4 <= |out|
      modifies this`out
      ensures out == Put(old(out), p, v)
    {
      ghost var o := out;
      var addr := v;
      for i := 0 to 4
        invariant |out| == |o| && out == o[..p] + Le(v, 4)[..i] + o[p + i..]
        invariant Le(v, 4)[i..] == Le(addr, 4 - i)
      {
        assert Le(v, 4)[i] == Le(v, 4)[i..][0] == addr % 256;
        assert Le(v, 4)[i + 1..] == Le(v, 4)[i..][1..];
        out := out[p + i := addr % 256];
        addr := addr / 256;
      }
      assert Le(v, 4)[..4] == Le(v, 4);
    }

    /** One turn of the loop of resolve. */
    method ResolveWord(p: nat)
      requires p in refs && refs[p] in labels && p + 4 <= |out|
      requires labels[refs[p]].Blob? ==> labels[refs[p]].q > 0
      modifies this`labels, this`out, this`inode
      ensures S() == Step(old(S()), p, python)
    {
      hide Put, Padding;
      var k := refs[p];
      var addr;
      match labels[k] {
        case Addr(x) =>
          addr := x;
        case Blob(data, q) =>
          Align(q);
          addr := |out| + BASE;
          out := out + data;
          labels := labels[k := Addr(addr)];
        case Inode =>
          addr := inode;
          inode := inode + 1;
          if python {
            labels := labels[k := Addr(addr)];
          }
      }
      Patch(p, addr);
    }

    /** resolve. The map of open words is gone through in any order. It panics when a label was
        never set. */
    method Resolve() returns (ok: bool)
      requires Valid() && |out| + BASE <= U32
      modifies this`labels, this`out, this`inode
      ensures ok <==> forall p :: p in refs ==> refs[p] in old(labels)
      ensures ok ==> Linked(old(S()), S())
    {
      hide Ok, Single, Step, Base, FilledIn, Pending;
      ghost var s := S();
      LinkingStart(s);
      var todo := refs.Keys;
      assert refs.Keys - todo == {};
      while todo != {}
        invariant todo <= refs.Keys
        invariant Linking(s, S(), refs.Keys - todo)
        invariant forall p :: p in refs.Keys - todo ==> refs[p] in s.labels
        decreases |todo|
      {
        var p :| p in todo;
        LinkingLabels(s, S(), refs.Keys - todo);
        if refs[p] !in labels {
          return false;
        }
        StepLinks(s, S(), refs.Keys - todo, p, python);
        ResolveWord(p);
        assert refs.Keys - (todo - {p}) == refs.Keys - todo + {p};
        todo := todo - {p};
      }
      assert refs.Keys - {} == refs.Keys;
      ok := true;
    }
  }
}
