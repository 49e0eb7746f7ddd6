/** The files of a bundle as fs_open and its callers read them from memory (kernel/fs.h). */
module KernelFiles {
  import opened Bytes
  import opened BundleRows
  import opened BundleWalk
  import opened FileStore

  /** struct file at offset `p`, field by field: name, access, data, sz, capacity. A file is read-only
      for the kernel when its access word is FILE_READONLY. */
  ghost predicate StoredAt(m: seq<byte>, p: nat, f: Stored) {
    && p + 28 <= |m|
    && Word(m, p) >= LINEAR && StringAt(m, Word(m, p) - LINEAR, f.name)
    && (f.access == ReadOnly <==> Word(m, p + 8) == FILE_READONLY)
    && (f.data.None? <==> Word(m, p + 12) == 0)
    && (f.data.Some? ==>
          var at := Word(m, p + 12) - LINEAR;
          && |f.data.value| == Word(m, p + 20)
          && 0 <= at && at + |f.data.value| <= |m| && f.data.value == m[at..at + |f.data.value|])
    && f.sz == Word(m, p + 16)
  }

  /** The list that starts at the pointer `w`, linked by `next`. */
  ghost predicate StoredList(m: seq<byte>, w: nat, fs: seq<Stored>)
    decreases |fs|
  {
    if fs == [] then w == 0
    else w >= LINEAR && StoredAt(m, w - LINEAR, fs[0]) && StoredList(m, Word(m, w - LINEAR + 24), fs[1..])
  }

  /** What a file of the bundle is in the kernel: its name as a C string, the same rights, a buffer as
      large as the data, and the size. */
  predicate Becomes(f: File, g: Stored) {
    g.name == CutAtNul(f.name) && g.access == f.access && g.data == f.data && g.sz == f.sz
  }

  lemma FileBecomes(m: seq<byte>, p: nat, f: File, g: Stored)
    requires FileAt(m, p, f)
    ensures StoredAt(m, p, g) <==> Becomes(f, g)
  {
    if StoredAt(m, p, g) {
      StringUnique(m, Word(m, p) - LINEAR, CutAtNul(f.name), g.name);
    }
  }

  /** The list the kernel walks is that of the bundle: these files, in this order, with these rights. */
  lemma {:induction false} ListBecomes(m: seq<byte>, w: nat, fs: seq<File>, gs: seq<Stored>)
    requires ListFrom(m, w, fs)
    ensures StoredList(m, w, gs) <==> |gs| == |fs| && forall i :: 0 <= i < |fs| ==> Becomes(fs[i], gs[i])
    decreases |fs|
  {
    hide Word, StoredAt, Becomes, PointsTo, DataAt;
    if fs != [] && gs != [] {
      FileBecomes(m, w - LINEAR, fs[0], gs[0]);
      ListBecomes(m, Word(m, w - LINEAR + 24), fs[1..], gs[1..]);
      assert |gs| == |fs| ==> forall i :: 1 <= i < |fs| ==> fs[i] == fs[1..][i - 1] && gs[i] == gs[1..][i - 1];
      if |gs| == |fs| && forall i :: 0 <= i < |fs| ==> Becomes(fs[i], gs[i]) {
        forall i | 0 <= i < |fs| - 1 ensures Becomes(fs[1..][i], gs[1..][i]) {
          assert fs[1..][i] == fs[i + 1] && gs[1..][i] == gs[i + 1];
        }
      }
    }
  }

  /** File `i` of the bundle is the first with this name. */
  predicate FirstNamed(fs: seq<File>, name: seq<byte>, i: nat) {
    && i < |fs| && CutAtNul(fs[i].name) == name
    && forall j :: 0 <= j < i ==> CutAtNul(fs[j].name) != name
  }

  /** The files as fs_open sees them: names and rights. */
  predicate Listed(gs: seq<Stored>, v: seq<Plain>) {
    |v| == |gs| && forall i :: 0 <= i < |gs| ==> v[i].name == gs[i].name && v[i].access == gs[i].access
  }

  /** The list of test `i`, as the kernel finds it. */
  ghost predicate ListOf(m: seq<byte>, i: nat, gs: seq<Stored>) {
    12 + 28 * i + 24 <= |m| && StoredList(m, Word(m, 12 + 28 * i + 20), gs)
  }

  /** The first file of that name is read-only in the bundle. */
  ghost predicate ReadOnlyThere(fs: seq<File>, name: seq<byte>) {
    exists k: nat :: FirstNamed(fs, name, k) && fs[k].access == ReadOnly
  }

  /** fs_open on the files of a test, the list being the one in memory: an open for writing is refused
      with EACCES exactly when the first file of the name is read-only in the bundle, and an open for
      reading never is. */
  lemma RightsHold(m: seq<byte>, b: BundleDump.Bundle, i: nat, gs: seq<Stored>, v: seq<Plain>,
                   name: seq<byte>, fl: Flags)
    requires Sees(m, b) && i < |b.tests| && ListOf(m, i, gs) && Listed(gs, v)
    ensures PlainOpen(v, name, fl) == Failed(EACCES) <==>
      !fl.other && (fl.wronly || fl.rdwr) && ReadOnlyThere(b.tests[i].fs + b.files, Strip(name))
  {
    hide FileAt, StoredAt, PointsTo, Word, Strip;
    var fs := b.tests[i].fs + b.files;
    assert TestAt(m, 12 + ROW * i, b.tests[i], b.files);
    ListBecomes(m, Word(m, 12 + 28 * i + 20), fs, gs);
    var k := Find(v, Strip(name));
    if k < |v| {
      assert Becomes(fs[k], gs[k]) && FirstNamed(fs, Strip(name), k);
    }
    forall l: nat | FirstNamed(fs, Strip(name), l) ensures l == k {
      assert Becomes(fs[l], gs[l]) && v[l].name == Strip(name);
    }
    assert ReadOnlyThere(fs, Strip(name)) <==> k < |v| && fs[k].access == ReadOnly;
    assert k < |v| ==> v[k].access == fs[k].access;
  }
}
