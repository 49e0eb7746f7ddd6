/** The files of a test (kernel/fs.c, kernel/fs_open.c) and what they stand for: growing sequences
    of bytes, with zeros where nothing was written. */
module FileStore {
  import opened Integers
  import opened Bytes
  import opened BundleRows

  type Errno = int
  const ENOENT := 2
  const EACCES := 13
  const EBADF := 9
  const EFAULT := 14
  const EINVAL := 22
  const ENFILE := 23
  const ENOSYS := 38
  const ERESTART := 85

  /** struct file: a buffer of `capacity` bytes, null for a file without data. */
  datatype Stored = Stored(name: seq<byte>, access: Access, data: Option<seq<byte>>, sz: nat)

  function Room(f: Stored): nat {
    if f.data.Some? then |f.data.value| else 0
  }

  /** A size never exceeds the capacity, and a capacity fits the word that holds it. */
  predicate StoredOk(f: Stored) {
    (f.data.Some? ==> f.sz <= Room(f)) && Room(f) < U32 && f.sz < U32
  }

  /** What a program can see of a file. The bytes of the buffer past sz are not in it. */
  datatype Plain = Plain(name: seq<byte>, access: Access, room: nat, bytes: Option<seq<byte>>, sz: nat)

  /** What is always true of a file: its contents are sz bytes, and fit the room there is. */
  predicate PlainOk(p: Plain) {
    (p.bytes.Some? ==> |p.bytes.value| == p.sz <= p.room) && p.room < U32 && p.sz < U32
  }

  function Seen(f: Stored): (p: Plain)
    requires StoredOk(f)
    ensures PlainOk(p)
  {
    Plain(f.name, f.access, Room(f), if f.data.Some? then Some(f.data.value[..f.sz]) else None, f.sz)
  }

  /** A program sees the first sz bytes of the buffer, and may fill all of it. */
  lemma SeenMeans(f: Stored)
    requires StoredOk(f)
    ensures var p := Seen(f);
      && p.name == f.name && p.access == f.access && p.sz == f.sz && (p.bytes.Some? <==> f.data.Some?)
      && (f.data.Some? ==>
            && p.room == |f.data.value| && |p.bytes.value| == f.sz
            && forall i :: 0 <= i < f.sz ==> p.bytes.value[i] == f.data.value[i])
  {
  }

  // ---- the file as a sequence ----

  /** The bytes a read at `offset` gives. */
  function PlainRead(c: seq<byte>, offset: nat, count: nat): seq<byte> {
    if offset >= |c| then [] else c[offset..Min(offset + count, |c|)]
  }

  /** How much of a write at `offset` fits. */
  function PlainCount(room: nat, offset: nat, count: nat): nat {
    if offset >= room then 0 else Min(count, room - offset)
  }

  /** The contents after a write at `offset`: a gap is filled with zeros, even by no bytes at all. */
  function PlainWrite(c: seq<byte>, room: nat, offset: nat, buf: seq<byte>): seq<byte> {
    if offset >= room then c
    else
      var padded := if offset > |c| then c + Zeros(offset - |c|) else c;
      var k := PlainCount(room, offset, |buf|);
      padded[..offset] + buf[..k] + if offset + k < |padded| then padded[offset + k..] else []
  }

  /** Byte `i` of the contents after a write. */
  function ByteAfter(c: seq<byte>, offset: nat, buf: seq<byte>, i: nat): byte
  {
    if offset <= i < offset + |buf| then buf[i - offset] else if i < |c| then c[i] else 0
  }

  /** A write changes exactly its own bytes, and fills the gap before them. */
  lemma WriteBytes(c: seq<byte>, room: nat, offset: nat, buf: seq<byte>)
    requires |c| <= room && offset < room
    ensures
      var k, w := PlainCount(room, offset, |buf|), PlainWrite(c, room, offset, buf);
      && |w| == (if offset + k > |c| then offset + k else |c|) <= room
      && forall i :: 0 <= i < |w| ==> w[i] == ByteAfter(c, offset, buf[..k], i)
  {
  }

  /** A later read at the same place gives what was written. */
  lemma WriteThenRead(c: seq<byte>, room: nat, offset: nat, buf: seq<byte>)
    requires |c| <= room
    ensures |PlainWrite(c, room, offset, buf)| <= room
    ensures var n := PlainCount(room, offset, |buf|);
      PlainRead(PlainWrite(c, room, offset, buf), offset, n) == buf[..n]
  {
  }

  /** A read gives the bytes there are from its offset on, and as many as were asked for if there are. */
  lemma ReadBytes(c: seq<byte>, offset: nat, count: nat)
    ensures var out := PlainRead(c, offset, count);
      && (offset + count <= |c| ==> |out| == count)
      && (offset <= |c| < offset + count ==> |out| == |c| - offset)
      && (|c| <= offset ==> out == [])
      && forall i :: 0 <= i < |out| ==> offset + i < |c| && out[i] == c[offset + i]
  {
  }

  /** Two reads in a row are one. */
  lemma ReadsJoin(c: seq<byte>, offset: nat, a: nat, b: nat)
    ensures var first := PlainRead(c, offset, a);
      first + PlainRead(c, offset + |first|, b) == PlainRead(c, offset, a + b)
  {
    hide PlainRead;
    var first := PlainRead(c, offset, a);
    ReadBytes(c, offset, a);
    ReadBytes(c, offset + |first|, b);
    ReadBytes(c, offset, a + b);
  }

  /** Two writes in a row are one. */
  lemma WritesJoin(c: seq<byte>, room: nat, offset: nat, a: seq<byte>, b: seq<byte>)
    requires |c| <= room && offset + |a| < room
    ensures PlainWrite(PlainWrite(c, room, offset, a), room, offset + |a|, b) == PlainWrite(c, room, offset, a + b)
  {
    hide PlainWrite;
    var w := PlainWrite(c, room, offset, a);
    var u, v := PlainWrite(w, room, offset + |a|, b), PlainWrite(c, room, offset, a + b);
    WriteBytes(c, room, offset, a);
    WriteBytes(w, room, offset + |a|, b);
    WriteBytes(c, room, offset, a + b);
    assert u == v;
  }

  // ---- the kernel's own functions on the buffer ----

  /** memset(out + from, 0, to - from). */
  function Fill(d: seq<byte>, from: nat, to: nat): seq<byte>
    requires from <= to <= |d|
  {
    d[..from] + Zeros(to - from) + d[to..]
  }

  /** memcpy(out + at, buf, |buf|). */
  function Copy(d: seq<byte>, at: nat, buf: seq<byte>): seq<byte>
    requires at + |buf| <= |d|
  {
    d[..at] + buf + d[at + |buf|..]
  }

  lemma WrittenMeans(f: Stored, offset: nat, buf: seq<byte>, count: nat, data: seq<byte>, sz: nat)
    requires StoredOk(f) && f.data.Some? && offset < Room(f) && count == PlainCount(Room(f), offset, |buf|)
    requires var d := if offset > f.sz then Fill(f.data.value, f.sz, offset) else f.data.value;
      data == Copy(d, offset, buf[..count])
    requires sz == if offset + count > f.sz then offset + count else f.sz
    ensures sz <= |data| && data[..sz] == PlainWrite(f.data.value[..f.sz], Room(f), offset, buf)
  {
    hide PlainWrite;
    var c := f.data.value[..f.sz];
    WriteBytes(c, Room(f), offset, buf);
    var w := PlainWrite(c, Room(f), offset, buf);
    assert forall i :: 0 <= i < sz ==> data[i] == w[i];
  }

  /** fs_write: the file after it and how many bytes it took. */
  method FsWrite(f: Stored, offset: nat, buf: seq<byte>) returns (g: Stored, count: nat)
    requires StoredOk(f) && f.data.Some? && offset < U32 && |buf| < U32
    ensures StoredOk(g) && count == PlainCount(Room(f), offset, |buf|)
    ensures Seen(g) == Seen(f).(bytes := Some(PlainWrite(Seen(f).bytes.value, Room(f), offset, buf)), sz := g.sz)
  {
    if offset >= Room(f) {
      return f, 0;
    }
    count := |buf|;
    if offset + count > Room(f) {
      count := Room(f) - offset;
    }
    var data, sz := f.data.value, f.sz;
    if offset > sz {
      data := Fill(data, sz, offset);
    }
    if (offset + count) % U32 > sz {
      sz := offset + count;
    }
    data := Copy(data, offset, buf[..count]);
    g := f.(data := Some(data), sz := sz);
    WrittenMeans(f, offset, buf, count, data, sz);
  }

  lemma SliceOfFront(d: seq<byte>, sz: nat, from: nat, to: nat)
    requires from <= to <= sz <= |d|
    ensures d[..sz][from..to] == d[from..to]
  {
    assert forall i :: 0 <= i < to - from ==> d[..sz][from..to][i] == d[from + i];
  }

  /** fs_read: the bytes copied out. */
  method FsRead(f: Stored, offset: nat, count: nat) returns (out: seq<byte>)
    requires StoredOk(f) && f.data.Some? && offset < U32 && count < U32
    ensures out == PlainRead(Seen(f).bytes.value, offset, count)
  {
    var n := count;
    if offset >= f.sz {
      n := 0;
    } else if offset + n > f.sz {
      n := f.sz - offset;
    }
    out := if n == 0 then [] else f.data.value[offset..offset + n];
    if offset < f.sz {
      SliceOfFront(f.data.value, f.sz, offset, offset + n);
    }
  }

  // ---- names ----

  /** strcmp of fs_open.c, on strings without their zero byte. */
  method StrCmp(a: seq<byte>, b: seq<byte>) returns (ans: int)
    requires 0 !in a && 0 !in b
    ensures ans == 0 <==> a == b
  {
    var s, t := a + [0], b + [0];
    var i := 0;
    while true
      invariant i <= |a| && i <= |b| && a[..i] == b[..i]
      decreases |a| - i
    {
      ans := s[i] as int - t[i] as int;
      if ans != 0 || s[i] == 0 {
        break;
      }
      assert a[i] == s[i] == t[i] && i < |b|;
      i := i + 1;
    }
    if ans == 0 {
      assert a == a[..i] && b == b[..i];
    }
  }

  /** A leading "./", any number of times, is dropped. */
  function Strip(name: seq<byte>): (r: seq<byte>)
    ensures |r| <= |name| && r == name[|name| - |r|..]
    ensures !(2 <= |r| && r[0] == 46 && r[1] == 47)
  {
    if 2 <= |name| && name[0] == 46 && name[1] == 47 then Strip(name[2..]) else name
  }

  /** "./", `k` times. */
  function DotSlashes(k: nat): seq<byte> {
    if k == 0 then [] else [46, 47] + DotSlashes(k - 1)
  }

  lemma Joined(a: seq<byte>, b: seq<byte>, c: seq<byte>)
    ensures a + (b + c) == (a + b) + c
  {
  }

  lemma FirstTwo(name: seq<byte>)
    requires 2 <= |name| && name[0] == 46 && name[1] == 47
    ensures name == [46, 47] + name[2..]
  {
    assert |[46, 47] + name[2..]| == |name|;
  }

  lemma StripTwo(name: seq<byte>)
    requires 2 <= |name| && name[0] == 46 && name[1] == 47
    ensures Strip(name) == Strip(name[2..])
  {
  }

  lemma OneMore(k: nat)
    ensures DotSlashes(k + 1) == [46, 47] + DotSlashes(k)
  {
  }

  lemma DotSlashMore(name: seq<byte>, k: nat)
    requires 2 <= |name| && name[0] == 46 && name[1] == 47 && name[2..] == DotSlashes(k) + Strip(name[2..])
    ensures name == DotSlashes(k + 1) + Strip(name)
  {
    hide Strip, DotSlashes;
    FirstTwo(name);
    StripTwo(name);
    OneMore(k);
    Joined([46, 47], DotSlashes(k), Strip(name[2..]));
  }

  lemma StripNone(name: seq<byte>)
    requires !(2 <= |name| && name[0] == 46 && name[1] == 47)
    ensures name == DotSlashes(0) + Strip(name)
  {
  }

  /** What is dropped is "./", some number of times, and nothing else. */
  lemma {:induction false} StripMeans(name: seq<byte>) returns (k: nat)
    ensures name == DotSlashes(k) + Strip(name)
    decreases |name|
  {
    hide DotSlashes, Strip;
    if 2 <= |name| && name[0] == 46 && name[1] == 47 {
      var j := StripMeans(name[2..]);
      DotSlashMore(name, j);
      k := j + 1;
    } else {
      k := 0;
      StripNone(name);
    }
  }

  /** The first loop of fs_open. */
  method StripDots(name: seq<byte>) returns (n: seq<byte>)
    ensures n == Strip(name)
  {
    n := name;
    while 2 <= |n| && n[0] == 46 && n[1] == 47
      invariant Strip(n) == Strip(name)
    {
      n := n[2..];
    }
  }

  /** The first file of that name, or their number. */
  function Find(fs: seq<Plain>, name: seq<byte>): (i: nat)
    ensures i <= |fs|
    ensures i < |fs| ==> fs[i].name == name
    ensures forall j :: 0 <= j < i ==> fs[j].name != name
  {
    if fs == [] || fs[0].name == name then 0 else 1 + Find(fs[1..], name)
  }

  lemma FindIs(fs: seq<Plain>, name: seq<byte>, i: nat)
    requires i <= |fs| && (i < |fs| ==> fs[i].name == name) && forall j :: 0 <= j < i ==> fs[j].name != name
    ensures Find(fs, name) == i
  {
    var k := Find(fs, name);
  }

  /** The bits of open's flags; `other` is any bit that fs_open does not know. */
  datatype Flags = Flags(wronly: bool, rdwr: bool, creat: bool, trunc: bool, other: bool)

  function Writes(fl: Flags): bool {
    fl.rdwr || fl.wronly
  }

  datatype Opened = Opened(file: nat) | Failed(error: Errno)

  /** What fs_open answers; the file is opened at offset 0. */
  function PlainOpen(fs: seq<Plain>, name: seq<byte>, fl: Flags): (r: Opened)
    ensures r.Opened? ==> r.file < |fs|
  {
    var i := Find(fs, Strip(name));
    if fl.other then Failed(ENOSYS)
    else if !Writes(fl) && (fl.creat || fl.trunc) then Failed(EINVAL)
    else if i == |fs| then Failed(ENOENT)
    else if Writes(fl) && fs[i].access == ReadOnly then Failed(EACCES)
    else Opened(i)
  }

  function Truncated(p: Plain): Plain {
    p.(bytes := if p.bytes.Some? then Some([]) else None, sz := 0)
  }

  predicate FirstOf(fs: seq<Plain>, name: seq<byte>, i: int) {
    0 <= i < |fs| && fs[i].name == name && forall j :: 0 <= j < i ==> fs[j].name != name
  }

  /** What fs_open answers, case by case. */
  lemma OpenMeans(fs: seq<Plain>, name: seq<byte>, fl: Flags)
    ensures var r := PlainOpen(fs, name, fl);
      var writes := fl.rdwr || fl.wronly;
      var there := exists i :: 0 <= i < |fs| && fs[i].name == Strip(name);
      && (r == Failed(ENOSYS) <==> fl.other)
      && (r == Failed(EINVAL) <==> !fl.other && !writes && (fl.creat || fl.trunc))
      && (r == Failed(ENOENT) <==> !fl.other && (writes || !(fl.creat || fl.trunc)) && !there)
      && (r.Failed? ==> r.error == ENOSYS || r.error == EINVAL || r.error == ENOENT || r.error == EACCES)
      && (r == Failed(EACCES) ==> writes && exists i :: FirstOf(fs, Strip(name), i) && fs[i].access == ReadOnly)
      && (r.Opened? ==> FirstOf(fs, Strip(name), r.file) && (writes ==> fs[r.file].access == ReadWrite))
  {
    hide Strip;
    var i := Find(fs, Strip(name));
    assert i < |fs| ==> FirstOf(fs, Strip(name), i);
  }
}
