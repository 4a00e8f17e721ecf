/** Directories of kernel/fs.c: namecmp, dirlookup, dirlink and the entry removal
    of sys_unlink, over the byte-level files of FileLayer. */
module Directory {
  import opened DiskBlock
  import opened FsLayout
  import opened BlockBudget
  import opened FileLayer

  const DIRSIZ: nat := 14
  const DESIZE: nat := 16
  const T_DIR: int := 1

  // ------------------------------------------------------------------- C strings

  ghost predicate Bytes(s: seq<int>) {
    forall k :: 0 <= k < |s| ==> 0 <= s[k] < 256
  }

  /** The character at position k of a string stored in s. */
  function Chr(s: seq<int>, k: nat): int { if k < |s| then s[k] else 0 }

  /** The string's value when at most n characters count. */
  function Trim(s: seq<int>, n: nat): seq<int>
    decreases n
  {
    if n == 0 || s == [] || s[0] == 0 then [] else [s[0]] + Trim(s[1..], n - 1)
  }

  /** Comparing one character at a time. */
  lemma TrimStep(p: seq<int>, q: seq<int>, n: nat)
    requires n > 0
    ensures Trim(p, n) == Trim(q, n) <==>
            Chr(p, 0) == Chr(q, 0) && (Chr(p, 0) == 0 || Trim(p[1..], n - 1) == Trim(q[1..], n - 1))
  {
    if Chr(p, 0) != 0 && Chr(q, 0) != 0 {
      assert Trim(p, n)[1..] == Trim(p[1..], n - 1) && Trim(q, n)[1..] == Trim(q[1..], n - 1);
      assert Trim(p, n)[0] == p[0] && Trim(q, n)[0] == q[0];
    }
  }

  /** r is how the two strings differ in the first place where they do. */
  ghost predicate FirstDiff(p: seq<int>, q: seq<int>, n: nat, r: int) {
    exists k: nat :: k < n && r == Chr(p, k) - Chr(q, k) && forall j: nat :: j < k ==> Chr(p, j) == Chr(q, j) != 0
  }

  /** strncmp: zero exactly when the first n characters spell the same string. */
  method Strncmp(p: seq<int>, q: seq<int>, n0: nat) returns (r: int)
    requires Bytes(p) && Bytes(q)
    ensures r == 0 <==> Trim(p, n0) == Trim(q, n0)
    ensures r != 0 ==> FirstDiff(p, q, n0, r)
  {
    var n: nat, k: nat := n0, 0;
    assert p[0..] == p && q[0..] == q;
    while n > 0 && Chr(p, k) != 0 && Chr(p, k) == Chr(q, k)
      invariant k <= |p| && k <= |q| && k + n == n0 && forall j: nat :: j < k ==> Chr(p, j) == Chr(q, j) != 0
      invariant Trim(p, n0) == Trim(q, n0) <==> Trim(p[k..], n) == Trim(q[k..], n)
    {
      TrimStep(p[k..], q[k..], n);
      assert p[k..][1..] == p[k + 1..] && q[k..][1..] == q[k + 1..];
      n, k := n - 1, k + 1;
    }
    if n == 0 {
      return 0;
    }
    TrimStep(p[k..], q[k..], n);
    r := Chr(p, k) - Chr(q, k);
  }

  /** n characters: the string and zeros. */
  function Pad(s: seq<int>, n: nat): seq<int>
  {
    if |s| <= n then s + Zeros(n - |s|) else s
  }

  /** strncpy: n characters, the string padded with zeros. */
  method Strncpy(t: seq<int>, n: nat) returns (s: seq<int>)
    requires Bytes(t)
    ensures Bytes(s) && s == Pad(Trim(t, n), n) && Trim(s, n) == Trim(t, n)
  {
    s := [];
    var k := 0;
    while k < n && Chr(t, k) != 0
      invariant k <= n && k <= |t| && s == t[..k]
      invariant forall j :: 0 <= j < k ==> t[j] != 0
    {
      s := s + [t[k]];
      k := k + 1;
    }
    ghost var copied := s;
    while |s| < n
      invariant k <= |s| <= n && s[..k] == copied && Bytes(s)
      invariant forall j :: k <= j < |s| ==> s[j] == 0
    {
      s := s + [0];
    }
    TrimIs(s, n, k);
    TrimIs(t, n, k);
    assert s == s[..k] + s[k..];
  }

  lemma {:induction false} TrimShape(s: seq<int>, n: nat)
    ensures |Trim(s, n)| <= n && forall k :: 0 <= k < |Trim(s, n)| ==> Trim(s, n)[k] != 0
    decreases n
  {
    if n > 0 && s != [] && s[0] != 0 { TrimShape(s[1..], n - 1); }
  }

  lemma {:induction false} TrimIs(s: seq<int>, n: nat, k: nat)
    requires k <= n && k <= |s| && (forall j :: 0 <= j < k ==> s[j] != 0)
    requires k == n || Chr(s, k) == 0
    ensures Trim(s, n) == s[..k]
    decreases n
  {
    if k > 0 {
      TrimIs(s[1..], n - 1, k - 1);
      assert s[..k] == [s[0]] + s[1..][..k - 1];
    }
  }

  // --------------------------------------------------------------------- entries

  datatype Dirent = Dirent(inum: int, name: seq<int>)

  function DecodeAt(c: seq<int>, k: nat): Dirent
    requires DESIZE * k + DESIZE <= |c|
  {
    Dirent(c[DESIZE * k] + 256 * c[DESIZE * k + 1], c[DESIZE * k + 2..DESIZE * k + DESIZE])
  }

  function Encode(d: Dirent): seq<int> { [d.inum % 256, d.inum / 256] + d.name }

  lemma DecodeEncode(d: Dirent)
    requires |d.name| == DIRSIZ
    ensures |Encode(d)| == DESIZE && DecodeAt(Encode(d), 0) == d
  {
    assert Encode(d)[2..] == d.name;
  }

  function FirstEntries(c: seq<int>, n: nat): (es: seq<Dirent>)
    requires DESIZE * n <= |c|
    ensures |es| == n && forall k :: 0 <= k < n ==> es[k] == DecodeAt(c, k)
  {
    if n == 0 then [] else FirstEntries(c, n - 1) + [DecodeAt(c, n - 1)]
  }

  function Entries(c: seq<int>): (es: seq<Dirent>)
    ensures |es| == |c| / DESIZE
  {
    FirstEntries(c, |c| / DESIZE)
  }

  lemma EntriesAt(c: seq<int>, k: nat)
    requires k < |c| / DESIZE
    ensures Entries(c)[k] == DecodeAt(c, k)
  {}

  /** The name an entry is known by. */
  function Key(name: seq<int>): seq<int> { Trim(name, DIRSIZ) }

  ghost predicate Live(es: seq<Dirent>, k: nat) { k < |es| && es[k].inum != 0 }

  /** The directory binds a name to an inode number. */
  ghost predicate Binds(es: seq<Dirent>, key: seq<int>, inum: int) {
    exists k: nat :: Live(es, k) && Key(es[k].name) == key && es[k].inum == inum
  }

  ghost predicate Matches(es: seq<Dirent>, k: nat, key: seq<int>) { Live(es, k) && Key(es[k].name) == key }

  ghost predicate Absent(es: seq<Dirent>, key: seq<int>) {
    forall k: nat :: !Matches(es, k, key)
  }

  /** Live entries have distinct names: the directory is a finite map. */
  ghost predicate UniqueNames(es: seq<Dirent>) {
    forall j, k :: 0 <= j < k && Live(es, j) && Live(es, k) ==> Key(es[j].name) != Key(es[k].name)
  }

  lemma BindsUnique(es: seq<Dirent>, key: seq<int>, a: int, b: int)
    requires UniqueNames(es) && Binds(es, key, a) && Binds(es, key, b)
    ensures a == b
  {
    var j: nat :| Live(es, j) && Key(es[j].name) == key && es[j].inum == a;
    var k: nat :| Live(es, k) && Key(es[k].name) == key && es[k].inum == b;
    assert j < k || k < j || j == k;
  }

  /** Store entry d at position k, possibly one past the end. */
  function Put(es: seq<Dirent>, k: nat, d: Dirent): seq<Dirent>
    requires k <= |es|
  {
    if k < |es| then es[k := d] else es + [d]
  }

  /** dirlink's effect: one new binding, unless the stored number is 0; the others
      as before. */
  lemma PutBinds(es: seq<Dirent>, k: nat, d: Dirent, key: seq<int>, inum: int)
    requires k <= |es| && (k < |es| ==> es[k].inum == 0)
    requires Absent(es, Key(d.name))
    ensures Binds(Put(es, k, d), key, inum) <==>
            if key == Key(d.name) then inum == d.inum != 0 else Binds(es, key, inum)
  {
    var fs := Put(es, k, d);
    assert fs[k] == d;
    if d.inum != 0 { assert Live(fs, k); }
    if Binds(fs, key, inum) {
      var j: nat :| Live(fs, j) && Key(fs[j].name) == key && fs[j].inum == inum;
      if j != k {
        assert Matches(es, j, key);
      }
    }
    if key != Key(d.name) && Binds(es, key, inum) {
      var j: nat :| Live(es, j) && Key(es[j].name) == key && es[j].inum == inum;
      assert Live(fs, j) && fs[j] == es[j];
    }
  }

  lemma PutUnique(es: seq<Dirent>, k: nat, d: Dirent)
    requires UniqueNames(es) && k <= |es| && (k < |es| ==> es[k].inum == 0)
    requires Absent(es, Key(d.name))
    ensures UniqueNames(Put(es, k, d))
  {
    var fs := Put(es, k, d);
    forall a, b | 0 <= a < b && Live(fs, a) && Live(fs, b) ensures Key(fs[a].name) != Key(fs[b].name) {
      if a != k && b != k {
        assert Live(es, a) && Live(es, b);
      } else {
        assert !Matches(es, if a == k then b else a, Key(d.name));
      }
    }
  }

  /** unlink's effect: zeroing a live entry removes its binding and no other. */
  lemma ZeroBinds(es: seq<Dirent>, k: nat, z: Dirent, key: seq<int>, inum: int)
    requires UniqueNames(es) && Live(es, k) && z.inum == 0
    ensures UniqueNames(es[k := z])
    ensures Binds(es[k := z], key, inum) <==> key != Key(es[k].name) && Binds(es, key, inum)
  {
    var fs := es[k := z];
    assert forall j: nat :: Live(fs, j) ==> j != k && Live(es, j) && fs[j] == es[j];
    if Binds(fs, key, inum) {
      var j: nat :| Live(fs, j) && Key(fs[j].name) == key && fs[j].inum == inum;
      assert j < k || k < j;
      assert Live(es, j) && Key(es[j].name) == key && es[j].inum == inum;
    }
    if key != Key(es[k].name) && Binds(es, key, inum) {
      var j: nat :| Live(es, j) && Key(es[j].name) == key && es[j].inum == inum;
      assert Live(fs, j) && fs[j] == es[j];
    }
  }

  // ------------------------------------------------------ entries inside the bytes

  lemma DecodeSlice(c: seq<int>, k: nat)
    requires DESIZE * k + DESIZE <= |c|
    ensures DecodeAt(c[DESIZE * k..DESIZE * k + DESIZE], 0) == DecodeAt(c, k)
  {
    var d := c[DESIZE * k..DESIZE * k + DESIZE];
    assert d[2..DESIZE] == c[DESIZE * k + 2..DESIZE * k + DESIZE];
  }

  lemma SpliceBytes(c: seq<int>, off: nat, b: seq<int>)
    requires Bytes(c) && Bytes(b) && off <= |c| && off % DESIZE == 0 && |c| % DESIZE == 0 && |b| == DESIZE
    ensures Bytes(Splice(c, off, b)) && |Splice(c, off, b)| % DESIZE == 0
  {}

  lemma SpliceEntryAt(c: seq<int>, k: nat, b: seq<int>, j: nat)
    requires DESIZE * k <= |c| && |b| == DESIZE && (j == k || DESIZE * j + DESIZE <= |c|)
    ensures DESIZE * j + DESIZE <= |Splice(c, DESIZE * k, b)|
    ensures DecodeAt(Splice(c, DESIZE * k, b), j) == if j == k then DecodeAt(b, 0) else DecodeAt(c, j)
  {
    var e := Splice(c, DESIZE * k, b);
    DecodeSlice(e, j);
    if j == k {
      assert e[DESIZE * k..DESIZE * k + DESIZE] == b;
    } else {
      assert e[DESIZE * j..DESIZE * j + DESIZE] == c[DESIZE * j..DESIZE * j + DESIZE];
      DecodeSlice(c, j);
    }
  }

  /** Writing one aligned entry replaces or appends that entry. */
  lemma SpliceEntries(c: seq<int>, n: nat, k: nat, b: seq<int>)
    requires |c| == DESIZE * n && k <= n && |b| == DESIZE
    ensures Entries(Splice(c, DESIZE * k, b)) == Put(Entries(c), k, DecodeAt(b, 0))
  {
    var e := Splice(c, DESIZE * k, b);
    var es, fs := Entries(c), Entries(e);
    assert |es| == n && |e| == DESIZE * (if k < n then n else n + 1);
    assert |fs| == if k < n then n else n + 1;
    hide Splice, DecodeAt, Entries;
    forall j | 0 <= j < |fs| ensures fs[j] == Put(es, k, DecodeAt(b, 0))[j] {
      SpliceEntryAt(c, k, b, j);
      EntriesAt(e, j);
      if j < n {
        EntriesAt(c, j);
      }
    }
  }

  // ------------------------------------------------------------------- operations

  /** File i is a directory: whole entries, byte-valued, no name twice. */
  ghost predicate DirOk(s: Fs, i: nat) {
    && Shape(s) && i < |s.inodes| && Mapped(s, i)
    && s.inodes[i].typ == T_DIR && s.inodes[i].size % DESIZE == 0
    && Bytes(Content(s, i)) && UniqueNames(Entries(Content(s, i)))
  }

  ghost function DirEntries(s: Fs, i: nat): seq<Dirent>
    requires DirOk(s, i)
  {
    Entries(Content(s, i))
  }

  lemma DirSize(s: Fs, i: nat)
    requires DirOk(s, i)
    ensures s.inodes[i].size == DESIZE * |DirEntries(s, i)|
  {}

  /** Read the k-th entry with readi. */
  method ReadEntry(fs: FileSystem, dp: nat, k: nat) returns (de: Dirent)
    requires FsOk(fs.St(), fs.owner) && DirOk(fs.St(), dp) && DESIZE * k < fs.inodes[dp].size
    ensures de == DirEntries(fs.St(), dp)[k] && Bytes(de.name)
  {
    hide DirEntries, Content, DecodeAt, FsOk, Entries, UniqueNames;
    EntryIs(fs.St(), dp, k);
    var r, b := fs.Readi(dp, DESIZE, DESIZE * k, DESIZE);
    de := DecodeAt(b, 0);
  }

  lemma EntryIs(s: Fs, i: nat, k: nat)
    requires DirOk(s, i) && DESIZE * k < s.inodes[i].size
    ensures DESIZE * k + DESIZE <= s.inodes[i].size && k < |DirEntries(s, i)|
    ensures DirEntries(s, i)[k] == DecodeAt(Content(s, i)[DESIZE * k..DESIZE * k + DESIZE], 0)
    ensures Bytes(DirEntries(s, i)[k].name)
  {
    hide RawByte;
    DecodeSlice(Content(s, i), k);
    EntriesAt(Content(s, i), k);
  }

  /** One turn of dirlookup's loop. */
  method CheckEntry(fs: FileSystem, dp: nat, k: nat, name: seq<int>) returns (hit: bool, inum: int)
    requires FsOk(fs.St(), fs.owner) && DirOk(fs.St(), dp) && DESIZE * k < fs.inodes[dp].size && Bytes(name)
    ensures k < |DirEntries(fs.St(), dp)|
    ensures hit <==> Matches(DirEntries(fs.St(), dp), k, Key(name))
    ensures hit ==> inum == DirEntries(fs.St(), dp)[k].inum
  {
    EntryIs(fs.St(), dp, k);
    hide DirOk, FsOk, DirEntries, Trim, Bytes;
    var de := ReadEntry(fs, dp, k);
    hit, inum := false, de.inum;
    if de.inum != 0 {
      var cmp := Strncmp(name, de.name, DIRSIZ);
      hit := cmp == 0;
    }
  }

  ghost predicate AbsentBefore(es: seq<Dirent>, n: nat, key: seq<int>) {
    forall k: nat :: k < n ==> !Matches(es, k, key)
  }

  lemma AbsentSteps(es: seq<Dirent>, n: nat, key: seq<int>)
    ensures AbsentBefore(es, 0, key)
    ensures AbsentBefore(es, n, key) && !Matches(es, n, key) ==> AbsentBefore(es, n + 1, key)
    ensures n >= |es| && AbsentBefore(es, n, key) ==> Absent(es, key)
  {}

  /** dirlookup: the first live entry with this name, and where it is. */
  method Dirlookup(fs: FileSystem, dp: nat, name: seq<int>) returns (found: bool, inum: int, k: nat)
    requires FsOk(fs.St(), fs.owner) && DirOk(fs.St(), dp) && Bytes(name)
    ensures var es := DirEntries(fs.St(), dp);
            if found then Matches(es, k, Key(name)) && inum == es[k].inum
            else Absent(es, Key(name))
  {
    ghost var es, key := DirEntries(fs.St(), dp), Key(name);
    DirSize(fs.St(), dp);
    hide *;
    AbsentSteps(es, 0, key);
    found, inum, k := false, 0, 0;
    while DESIZE * k < fs.inodes[dp].size && !found
      invariant k <= |es| && dp < |fs.inodes|
      invariant if found then Matches(es, k, key) && k < |es| && inum == es[k].inum else AbsentBefore(es, k, key)
      decreases !found, |es| - k
    {
      found, inum := CheckEntry(fs, dp, k, name);
      AbsentSteps(es, k, key);
      if !found {
        k := k + 1;
      }
    }
    AbsentSteps(es, k, key);
  }

  ghost predicate LiveBefore(es: seq<Dirent>, n: nat) {
    n <= |es| && forall k :: 0 <= k < n ==> es[k].inum != 0
  }

  lemma LiveSteps(es: seq<Dirent>, n: nat)
    ensures LiveBefore(es, 0)
    ensures LiveBefore(es, n) && n < |es| && es[n].inum != 0 ==> LiveBefore(es, n + 1)
    ensures LiveBefore(es, n) && (n == |es| || (n < |es| && es[n].inum == 0)) ==> FirstFree(es, n)
  {}

  /** dirlink's scan for an empty entry: the first free one, else the end. */
  method FindFree(fs: FileSystem, dp: nat) returns (k: nat)
    requires FsOk(fs.St(), fs.owner) && DirOk(fs.St(), dp)
    ensures FirstFree(DirEntries(fs.St(), dp), k) && DESIZE * k <= fs.inodes[dp].size
  {
    ghost var es := DirEntries(fs.St(), dp);
    DirSize(fs.St(), dp);
    hide *;
    k := 0;
    var free := false;
    LiveSteps(es, 0);
    while DESIZE * k < fs.inodes[dp].size && !free
      invariant k <= |es| && dp < |fs.inodes| && LiveBefore(es, k)
      invariant free ==> k < |es| && es[k].inum == 0
      decreases !free, |es| - k
    {
      var de := ReadEntry(fs, dp, k);
      LiveSteps(es, k);
      free := de.inum == 0;
      if !free {
        k := k + 1;
      }
    }
    LiveSteps(es, k);
  }

  /** Write the k-th entry with writei: all of it or nothing. */
  method WriteEntry(fs: FileSystem, dp: nat, k: nat, de: Dirent) returns (ok: bool)
    requires FsOk(fs.St(), fs.owner) && DirOk(fs.St(), dp) && |fs.inodes| == |fs.dinodes|
    requires DESIZE * k <= fs.inodes[dp].size && |de.name| == DIRSIZ
    modifies fs`disk, fs`inodes, fs`dinodes, fs`logged, fs`owner
    ensures FsOk(fs.St(), fs.owner) && |fs.inodes| == |old(fs.inodes)| == |fs.dinodes| && Mapped(fs.St(), dp)
    ensures fs.inodes[dp].typ == T_DIR
    ensures Saved(old(fs.St()), fs.St(), old(fs.dinodes), fs.dinodes, old(fs.logged), fs.logged, dp, k, ok)
    ensures ok <==> Room(old(fs.St()), dp, k)
    ensures Content(fs.St(), dp) == if ok then Splice(Content(old(fs.St()), dp), DESIZE * k, Encode(de))
                                    else Content(old(fs.St()), dp)
    ensures OtherContents(old(fs.St()), fs.St(), dp)
    ensures DESIZE * k < old(fs.inodes)[dp].size ==> ok
  {
    ghost var s := fs.St();
    DecodeEncode(de);
    assert s.inodes[dp].size <= MAXFILE * BSIZE;
    hide *;
    var r, part := fs.Writei(dp, Encode(de), DESIZE, DESIZE * k);
    ok := r == DESIZE;
    EntryWritten(s, fs.St(), fs.owner, dp, k, Encode(de), r, part);
    EntrySaved(s, fs.St(), old(fs.owner), fs.owner, old(fs.dinodes), fs.dinodes, old(fs.logged), fs.logged, dp, k,
               Encode(de), r, part);
  }

  /** What writing entry k of directory i does besides its bytes.  Refused, it does
      nothing.  Otherwise the directory's inode has at most more blocks and a larger
      size, as on disk, and what changed is logged: the entry's block, the indirect
      block, the bitmap and the inode's block at most. */
  ghost predicate Saved(s: Fs, t: Fs, d0: seq<Inode>, d1: seq<Inode>, l0: set<nat>, l1: set<nat>, i: nat, k: nat,
          ok: bool) {
    var lo, hi := DESIZE * k, DESIZE * k + DESIZE;
    && i < |s.inodes| == |t.inodes| == |d0| && t.sb == s.sb
    && t.inodes[i] == s.inodes[i].(
         addrs := t.inodes[i].addrs, size := if ok then Max(s.inodes[i].size, hi) else s.inodes[i].size)
    && if hi > MAXFILE * BSIZE then t == s && d1 == d0 && l1 == l0
       else
         && d1 == d0[i := t.inodes[i]] && InodeBlock(t.sb, i) in l1 && Covered(s.disk, t.disk, l1)
         && Footprint(t, i, lo, hi, s.disk, l0, l1) && KeepsSlots(s, t) && Within(s, t, i, lo, hi)
  }

  /** Entry k fits into the largest file, and the free blocks cover what it lacks. */
  ghost predicate Room(s: Fs, i: nat, k: nat) {
    && Shape(s) && i < |s.inodes| && DESIZE * k + DESIZE <= MAXFILE * BSIZE
    && |FreeBlocks(s)| >= |Lack(s, i, DESIZE * k, DESIZE * k + DESIZE)|
  }

  lemma EntrySaved(s: Fs, t: Fs, o: Owner, o': Owner, d0: seq<Inode>, d1: seq<Inode>, l0: set<nat>, l1: set<nat>,
                   i: nat, k: nat, b: seq<int>, r: int, part: nat)
    requires FsOk(s, o) && FsOk(t, o') && DirOk(s, i) && |b| == DESIZE && DESIZE * k <= s.inodes[i].size && t.sb == s.sb
    requires WriteDone(s, t, i, DESIZE * k, b, DESIZE, r, part) && i < |t.inodes| == |d0|
    requires if r == -1 then d1 == d0 && l1 == l0 else d1 == d0[i := t.inodes[i]] && InodeBlock(t.sb, i) in l1
    requires r != -1 && part == 0 ==> Covered(s.disk, t.disk, l1)
    requires r != -1 ==> Footprint(t, i, DESIZE * k, DESIZE * k + DESIZE, s.disk, l0, l1)
    ensures Saved(s, t, d0, d1, l0, l1, i, k, r == DESIZE) && (r == DESIZE <==> Room(s, i, k))
  {
    hide FsOk, Wrote, KeepsSlots, Stops, Within, Covered, Footprint, DirOk, FreeBlocks, Lack;
    DirShape(s, i);
    WholeEntry(k, r);
    EntryOutcome(s, t, i, k, b, r, part);
    if r != -1 {
      WriteExactly(s, t, o, o', i, DESIZE * k, b, DESIZE, r, part);
    }
  }

  ghost predicate OtherContents(s: Fs, t: Fs, i: nat) {
    && Shape(s) && Shape(t) && |t.inodes| == |s.inodes|
    && forall j :: 0 <= j < |s.inodes| && j != i && s.inodes[j].size <= MAXFILE * BSIZE ==>
         t.inodes[j] == s.inodes[j] && Content(t, j) == Content(s, j)
  }

  lemma EntryFits(k: nat, size: nat)
    requires DESIZE * k < size && size % DESIZE == 0
    ensures DESIZE * k + DESIZE <= size
  {
  }

  /** An entry below the size lies in a mapped block. */
  lemma EntryMapped(s: Fs, i: nat, k: nat)
    requires DirOk(s, i) && DESIZE * k < s.inodes[i].size
    ensures MappedRange(s, i, DESIZE * k, DESIZE * k + DESIZE)
  {
    hide Entries, UniqueNames, Content, Bytes, SlotAddr, DataSlot, Shape;
    EntryFits(k, s.inodes[i].size);
  }

  /** No block boundary falls inside an entry. */
  lemma WholeEntry(k: nat, r: int)
    ensures 0 < r < DESIZE ==> (DESIZE * k + r) % BSIZE != 0
  {
    if (DESIZE * k + r) % BSIZE == 0 {
      var q := (DESIZE * k + r) / BSIZE;
      assert DESIZE * k + r == BSIZE * q;
      assert r == DESIZE * (64 * q - k);
    }
  }

  /** Sixteen aligned bytes are written wholly or not at all. */
  lemma EntryWritten(s: Fs, t: Fs, owner: Owner, i: nat, k: nat, b: seq<int>, r: int, part: nat)
    requires DirOk(s, i) && |b| == DESIZE && DESIZE * k <= s.inodes[i].size
    requires FsOk(t, owner) && forall j :: 0 <= j < |s.inodes| ==> Mapped(s, j)
    requires WriteDone(s, t, i, DESIZE * k, b, DESIZE, r, part)
    ensures |t.inodes| == |s.inodes| && Mapped(t, i) && t.inodes[i].typ == T_DIR && OtherContents(s, t, i)
    ensures Content(t, i) == if r == DESIZE then Splice(Content(s, i), DESIZE * k, b) else Content(s, i)
    ensures DESIZE * k < s.inodes[i].size ==> r == DESIZE
  {
    forall j | 0 <= j < |s.inodes| ensures s.inodes[j].size <= MAXFILE * BSIZE {
      assert Mapped(s, j);
    }
    assert Mapped(t, i);
    WholeEntry(k, r);
    EntryOutcome(s, t, i, k, b, r, part);
    EntryMeaning(s, t, i, k, b, r);
  }

  lemma EntryOutcome(s: Fs, t: Fs, i: nat, k: nat, b: seq<int>, r: int, part: nat)
    requires DirOk(s, i) && |b| == DESIZE && DESIZE * k <= s.inodes[i].size
    requires WriteDone(s, t, i, DESIZE * k, b, DESIZE, r, part)
    requires 0 < r < DESIZE ==> (DESIZE * k + r) % BSIZE != 0
    ensures r == -1 || r == 0 || r == DESIZE
    ensures r != -1 ==> part == 0
    ensures DESIZE * k < s.inodes[i].size ==> r == DESIZE
  {
    if DESIZE * k < s.inodes[i].size {
      EntryMapped(s, i, k);
      EntryBelow(s, i, k);
    }
  }

  lemma EntryBelow(s: Fs, i: nat, k: nat)
    requires DirOk(s, i) && DESIZE * k < s.inodes[i].size
    ensures DESIZE * k + DESIZE <= s.inodes[i].size <= MAXFILE * BSIZE
  {}

  lemma EntryMeaning(s: Fs, t: Fs, i: nat, k: nat, b: seq<int>, r: int)
    requires WriteDone(s, t, i, DESIZE * k, b, DESIZE, r, 0) || (r == -1 && t == s)
    requires Shape(s) && i < |s.inodes| && |b| == DESIZE && DESIZE * k <= s.inodes[i].size
    requires r == -1 || r == 0 || r == DESIZE
    requires forall j :: 0 <= j < |s.inodes| ==> s.inodes[j].size <= MAXFILE * BSIZE
    ensures Shape(t) && |t.inodes| == |s.inodes| && t.inodes[i].size <= MAXFILE * BSIZE && OtherContents(s, t, i)
    ensures Content(t, i) == if r == DESIZE then Splice(Content(s, i), DESIZE * k, b) else Content(s, i)
  {
    hide Content;
    if r == DESIZE {
      WriteMeaning(s, t, i, DESIZE * k, b);
    } else if r != -1 {
      WriteMeaning(s, t, i, DESIZE * k, []);
      assert Splice(Content(s, i), DESIZE * k, []) == Content(s, i);
    }
  }

  /** dirlink: fails on a name already present, and then changes nothing.  Otherwise
      it adds one entry, in the first free place k or at the end, exactly when there
      is room for it.  The entry holds the low 16 bits of the number. */
  method Dirlink(fs: FileSystem, dp: nat, name: seq<int>, inum: nat) returns (r: int, ghost k: nat)
    requires FsOk(fs.St(), fs.owner) && DirOk(fs.St(), dp) && |fs.inodes| == |fs.dinodes|
    requires Bytes(name)
    modifies fs`disk, fs`inodes, fs`dinodes, fs`logged, fs`owner
    ensures r == 0 || r == -1
    ensures FsOk(fs.St(), fs.owner) && DirOk(fs.St(), dp) && OtherContents(old(fs.St()), fs.St(), dp)
    ensures !Absent(DirEntries(old(fs.St()), dp), Key(name)) ==>
      r == -1 && fs.St() == old(fs.St()) && fs.dinodes == old(fs.dinodes) && fs.logged == old(fs.logged)
    ensures Absent(DirEntries(old(fs.St()), dp), Key(name)) ==>
      && LinkedAt(old(fs.St()), fs.St(), dp, name, inum, k, r)
      && Saved(old(fs.St()), fs.St(), old(fs.dinodes), fs.dinodes, old(fs.logged), fs.logged, dp, k, r == 0)
  {
    hide FsOk, DirOk, OtherContents, Absent, LinkedAt, DirEntries, Content, Key, Saved;
    ghost var s := fs.St();
    DirShape(s, dp);
    OthersSame(s, dp);
    var found, _, at := Dirlookup(fs, dp, name);
    if found {
      FoundPresent(DirEntries(s, dp), at, Key(name));
      return -1, at;
    }
    r, k := AddEntry(fs, dp, name, inum);
  }

  lemma DirShape(s: Fs, i: nat)
    requires DirOk(s, i)
    ensures Shape(s)
  {}

  /** What dirlink makes of a directory without the name. */
  ghost predicate LinkedAt(s: Fs, t: Fs, dp: nat, name: seq<int>, inum: nat, k: nat, r: int) {
    && DirOk(s, dp) && DirOk(t, dp)
    && var es, after := DirEntries(s, dp), DirEntries(t, dp);
       && FirstFree(es, k) && (r == 0 <==> Room(s, dp, k))
       && if r == 0 then LinkAdded(es, after, Key(name), inum % 65536) else after == es
  }

  lemma FoundPresent(es: seq<Dirent>, k: nat, key: seq<int>)
    requires Matches(es, k, key)
    ensures !Absent(es, key)
  {}

  /** The part of dirlink that follows the check for the name. */
  method AddEntry(fs: FileSystem, dp: nat, name: seq<int>, inum: nat) returns (r: int, ghost at: nat)
    requires FsOk(fs.St(), fs.owner) && DirOk(fs.St(), dp) && |fs.inodes| == |fs.dinodes|
    requires Bytes(name) && Absent(DirEntries(fs.St(), dp), Key(name))
    modifies fs`disk, fs`inodes, fs`dinodes, fs`logged, fs`owner
    ensures r == 0 || r == -1
    ensures FsOk(fs.St(), fs.owner) && DirOk(fs.St(), dp) && OtherContents(old(fs.St()), fs.St(), dp)
    ensures LinkedAt(old(fs.St()), fs.St(), dp, name, inum, at, r)
    ensures Saved(old(fs.St()), fs.St(), old(fs.dinodes), fs.dinodes, old(fs.logged), fs.logged, dp, at, r == 0)
  {
    hide FsOk, OtherContents, Absent, LinkAdded, DirEntries, Content, Encode, Splice, Saved, Room, FirstFree, Trim;
    ghost var s := fs.St();
    var k := FindFree(fs, dp);
    at := k;
    var nm := Strncpy(name, DIRSIZ);
    PadKey(name);
    var de := Dirent(inum % 65536, nm);
    var ok := WriteEntry(fs, dp, k, de);
    AllMapped(fs.St(), fs.owner);
    LinkedDir(s, fs.St(), dp, k, de, ok);
    r := if ok then 0 else -1;
  }

  /** One entry for the key, in the first free place, and nothing else changed. */
  ghost predicate LinkAdded(es: seq<Dirent>, after: seq<Dirent>, key: seq<int>, inum: int) {
    exists k: nat :: FirstFree(es, k) && after == Put(es, k, Dirent(inum, Pad(key, DIRSIZ)))
  }

  /** In terms of bindings: the name is bound to the low 16 bits of the number
      unless they are 0, and every other name as before. */
  lemma LinkBinds(es: seq<Dirent>, after: seq<Dirent>, name: seq<int>, inum: nat, key: seq<int>, v: int)
    requires LinkAdded(es, after, Key(name), inum % 65536) && Absent(es, Key(name))
    ensures Binds(after, key, v) <==> if key == Key(name) then v == inum % 65536 != 0 else Binds(es, key, v)
  {
    hide Put, Key, Pad, Absent, Binds;
    var d := Dirent(inum % 65536, Pad(Key(name), DIRSIZ));
    var k: nat :| FirstFree(es, k) && after == Put(es, k, d);
    PadKey(name);
    PutBinds(es, k, d, key, v);
  }

  lemma PadKey(name: seq<int>)
    ensures Key(Pad(Key(name), DIRSIZ)) == Key(name) && |Pad(Key(name), DIRSIZ)| == DIRSIZ
  {
    TrimShape(name, DIRSIZ);
    TrimIs(Pad(Key(name), DIRSIZ), DIRSIZ, |Key(name)|);
  }

  /** A dirlink that reports success has bound the name to the number exactly
      when the number is an entry's: not 0 and within 16 bits. */
  lemma LinkBindsIt(es: seq<Dirent>, after: seq<Dirent>, name: seq<int>, inum: nat)
    requires LinkAdded(es, after, Key(name), inum % 65536) && Absent(es, Key(name))
    ensures Binds(after, Key(name), inum) <==> 0 < inum < 65536
  {
    hide LinkAdded, Absent, Binds, Key;
    LinkBinds(es, after, name, inum, Key(name), inum);
  }

  /** Inode number 65536: the name "a" goes into an empty directory with the number 0,
      and is bound to nothing. */
  lemma LinkLost()
    ensures var name := [97]; var after := [Dirent(65536 % 65536, Pad(Key(name), DIRSIZ))];
            LinkAdded([], after, Key(name), 65536 % 65536) && Absent([], Key(name)) && !Binds(after, Key(name), 65536)
  {
    var name := [97];
    var d := Dirent(65536 % 65536, Pad(Key(name), DIRSIZ));
    assert FirstFree([], 0) && [d] == Put([], 0, d);
    LinkBindsIt([], [d], name, 65536);
  }

  ghost predicate FirstFree(es: seq<Dirent>, k: nat) {
    && k <= |es| && (forall j :: 0 <= j < k ==> es[j].inum != 0)
    && (k < |es| ==> es[k].inum == 0)
  }

  lemma OthersSame(s: Fs, i: nat)
    requires Shape(s)
    ensures OtherContents(s, s, i)
  {}

  lemma LinkedContent(c: seq<int>, k: nat, de: Dirent)
    requires |c| % DESIZE == 0 && Bytes(c) && UniqueNames(Entries(c))
    requires FirstFree(Entries(c), k) && 0 <= de.inum < 65536 && |de.name| == DIRSIZ && Bytes(de.name)
    requires Absent(Entries(c), Key(de.name))
    ensures var e := Splice(c, DESIZE * k, Encode(de));
            |e| % DESIZE == 0 && Bytes(e) && Entries(e) == Put(Entries(c), k, de) && UniqueNames(Entries(e))
  {
    DecodeEncode(de);
    SpliceEntries(c, |Entries(c)|, k, Encode(de));
    PutUnique(Entries(c), k, de);
    SpliceBytes(c, DESIZE * k, Encode(de));
  }

  /** The directory after dirlink's write. */
  lemma LinkedDir(s: Fs, t: Fs, i: nat, k: nat, de: Dirent, ok: bool)
    requires DirOk(s, i) && Shape(t) && |t.inodes| == |s.inodes| && Mapped(t, i) && t.inodes[i].typ == T_DIR
    requires FirstFree(DirEntries(s, i), k) && 0 <= de.inum < 65536 && |de.name| == DIRSIZ && Bytes(de.name)
    requires Absent(DirEntries(s, i), Key(de.name)) && de.name == Pad(Key(de.name), DIRSIZ)
    requires Content(t, i) == if ok then Splice(Content(s, i), DESIZE * k, Encode(de)) else Content(s, i)
    ensures DirOk(t, i)
    ensures ok ==> LinkAdded(DirEntries(s, i), DirEntries(t, i), Key(de.name), de.inum)
    ensures !ok ==> DirEntries(t, i) == DirEntries(s, i)
  {
    hide Shape, Entries, UniqueNames, Splice, Encode, Put, Bytes, Key;
    var c, e := Content(s, i), Content(t, i);
    if ok {
      LinkedContent(c, k, de);
      assert DirEntries(t, i) == Put(DirEntries(s, i), k, de);
    }
  }

  /** isdirempty: no live entry after the first two. */
  ghost predicate EmptyDir(es: seq<Dirent>) {
    forall k: nat :: 2 <= k ==> !Live(es, k)
  }

  ghost predicate DeadBetween(es: seq<Dirent>, lo: nat, hi: nat) {
    forall k: nat :: lo <= k < hi ==> !Live(es, k)
  }

  lemma DeadSteps(es: seq<Dirent>, n: nat)
    ensures DeadBetween(es, 2, 2)
    ensures n < |es| && DeadBetween(es, 2, n) && es[n].inum == 0 ==> DeadBetween(es, 2, n + 1)
    ensures n >= |es| && DeadBetween(es, 2, n) ==> EmptyDir(es)
    ensures 2 <= n < |es| && es[n].inum != 0 ==> !EmptyDir(es)
  {
    if 2 <= n < |es| && es[n].inum != 0 { assert Live(es, n); }
  }

  method Isdirempty(fs: FileSystem, dp: nat) returns (empty: bool)
    requires FsOk(fs.St(), fs.owner) && DirOk(fs.St(), dp)
    ensures empty <==> EmptyDir(DirEntries(fs.St(), dp))
  {
    ghost var es := DirEntries(fs.St(), dp);
    DirSize(fs.St(), dp);
    hide *;
    var k := 2;
    DeadSteps(es, k);
    while DESIZE * k < fs.inodes[dp].size
      invariant 2 <= k && dp < |fs.inodes| && DeadBetween(es, 2, k)
    {
      var de := ReadEntry(fs, dp, k);
      DeadSteps(es, k);
      if de.inum != 0 {
        return false;
      }
      k := k + 1;
    }
    DeadSteps(es, k);
    return true;
  }

  /** Every file keeps its kind, its size and its bytes. */
  ghost predicate SameContents(s: Fs, t: Fs) {
    && Shape(s) && Shape(t) && |t.inodes| == |s.inodes|
    && forall j :: 0 <= j < |s.inodes| && s.inodes[j].size <= MAXFILE * BSIZE ==>
         t.inodes[j].typ == s.inodes[j].typ && t.inodes[j].size == s.inodes[j].size && Content(t, j) == Content(s, j)
  }

  /** Changing a link count changes nothing else. */
  lemma NlinkOnly(s: Fs, t: Fs, owner: Owner, i: nat, n: int)
    requires FsOk(s, owner) && i < |s.inodes| && t == s.(inodes := s.inodes[i := s.inodes[i].(nlink := n)])
    ensures FsOk(t, owner) && SameContents(s, t)
  {
    SameAddrs(s, t, owner);
    forall j | 0 <= j < |t.inodes| ensures Mapped(t, j) {
      assert Mapped(s, j);
      forall bn | 0 <= bn < MAXFILE && bn * BSIZE < t.inodes[j].size ensures SlotAddr(t, j, DataSlot(bn)) != 0 {
        assert SlotAddr(t, j, DataSlot(bn)) == SlotAddr(s, j, DataSlot(bn));
      }
    }
    hide Consistent, SameSlots, SlotAddr;
    forall j | 0 <= j < |s.inodes| && s.inodes[j].size <= MAXFILE * BSIZE ensures Content(t, j) == Content(s, j) {
      forall p | 0 <= p < s.inodes[j].size ensures Content(t, j)[p] == Content(s, j)[p] {
        assert RawByte(t, j, p) == RawByte(s, j, p);
      }
    }
  }

  /** ip->nlink-- and iupdate(ip). */
  method DropLink(fs: FileSystem, i: nat)
    requires FsOk(fs.St(), fs.owner) && i < |fs.inodes| == |fs.dinodes|
    modifies fs`inodes, fs`dinodes, fs`logged
    ensures fs.inodes == old(fs.inodes)[i := old(fs.inodes)[i].(nlink := old(fs.inodes)[i].nlink - 1)]
    ensures fs.dinodes == old(fs.dinodes)[i := fs.inodes[i]] && fs.logged == old(fs.logged) + {InodeBlock(fs.sb, i)}
    ensures FsOk(fs.St(), fs.owner) && SameContents(old(fs.St()), fs.St())
  {
    hide FsOk, SameContents;
    ghost var s := fs.St();
    fs.inodes := fs.inodes[i := fs.inodes[i].(nlink := fs.inodes[i].nlink - 1)];
    NlinkOnly(s, fs.St(), fs.owner, i, s.inodes[i].nlink - 1);
    fs.Iupdate(i);
  }

  lemma SameDir(s: Fs, t: Fs, owner: Owner, i: nat)
    requires SameContents(s, t) && DirOk(s, i) && FsOk(t, owner)
    ensures DirOk(t, i) && DirEntries(t, i) == DirEntries(s, i)
  {
    hide Content, Entries, UniqueNames, Bytes, Consistent;
    assert Mapped(t, i);
  }

  /** A directory entry names an inode, and a directory's is a directory. */
  ghost predicate Points(s: Fs, dp: nat, inum: int) {
    0 <= inum < |s.inodes| && inum != dp && (s.inodes[inum].typ == T_DIR ==> DirOk(s, inum))
  }

  const DOT: seq<int> := [46]
  const DOTDOT: seq<int> := [46, 46]

  /** What sys_unlink does to the link counts: one less for the file, and one less
      for its parent when the file is a directory, whose ".." goes with it. */
  ghost predicate LinksDropped(s: Fs, t: Fs, dp: nat, inum: nat)
    requires inum < |s.inodes|
  {
    && |t.inodes| == |s.inodes|
    && forall j :: 0 <= j < |s.inodes| ==>
         t.inodes[j] == s.inodes[j].(nlink := s.inodes[j].nlink
              - (if j == inum then 1 else 0) - (if j == dp && s.inodes[inum].typ == T_DIR then 1 else 0))
  }

  /** What sys_unlink makes of s: it refuses a dot name, a name that is not there
      and a directory with entries; it panics if the file has no link to drop;
      otherwise the entry of the name goes, and nothing else but the links. */
  ghost predicate UnlinkDone(s: Fs, t: Fs, dp: nat, name: seq<int>, k: nat, r: int, panic: bool) {
    && DirOk(s, dp) && DirOk(t, dp)
    && var es, key := DirEntries(s, dp), Key(name);
       if key == DOT || key == DOTDOT || Absent(es, key) then r == -1 && !panic && t == s
       else
         && Matches(es, k, key) && Points(s, dp, es[k].inum)
         && var n := es[k].inum;
            && (panic <==> s.inodes[n].nlink < 1) && (panic ==> t == s)
            && (!panic ==>
                  if s.inodes[n].typ == T_DIR && !EmptyDir(DirEntries(s, n)) then r == -1 && t == s
                  else r == 0 && Removed(s, t, dp, k, n))
  }

  /** ... on disk as in memory, and every block that changed is logged, with nothing
      but what the entry and the two inodes are about. */
  ghost predicate UnlinkSaved(s: Fs, t: Fs, d0: seq<Inode>, d1: seq<Inode>, l0: set<nat>, l1: set<nat>, dp: nat,
          k: nat, inum: nat)
  {
    && dp < |t.inodes| == |d0| && inum < |d0| && Shape(t) && |s.disk| == |t.disk|
    && d1 == d0[dp := t.inodes[dp]][inum := t.inodes[inum]]
    && l0 + {InodeBlock(t.sb, dp), InodeBlock(t.sb, inum)} <= l1 && Covered(s.disk, t.disk, l1)
    && (forall x :: x in l1 && x !in l0 ==> x == InodeBlock(t.sb, inum) || FileBlock(t, dp, DESIZE * k, DESIZE * k + DESIZE, x))
    && (forall b: nat :: b < |s.disk| && t.disk[b] != s.disk[b] ==>
          FileBlock(t, dp, DESIZE * k, DESIZE * k + DESIZE, b))
  }

  ghost predicate Removed(s: Fs, t: Fs, dp: nat, k: nat, inum: nat)
    requires DirOk(s, dp) && DirOk(t, dp) && k < |DirEntries(s, dp)| && inum < |s.inodes|
  {
    && DirEntries(t, dp) == DirEntries(s, dp)[k := Zeroed()]
    && LinksDropped(s, t, dp, inum) && BytesElse(s, t, dp)
  }

  /** sys_unlink from the parent directory on: look the name up, refuse what must
      stay, zero the entry and drop the link counts.  The write cannot fail. */
  method Unlink(fs: FileSystem, dp: nat, name: seq<int>) returns (r: int, panic: bool, ghost k: nat)
    requires FsOk(fs.St(), fs.owner) && DirOk(fs.St(), dp) && |fs.inodes| == |fs.dinodes| && Bytes(name)
    requires forall k: nat :: Matches(DirEntries(fs.St(), dp), k, Key(name)) ==>
               Points(fs.St(), dp, DirEntries(fs.St(), dp)[k].inum)
    modifies fs`disk, fs`inodes, fs`dinodes, fs`logged, fs`owner
    ensures FsOk(fs.St(), fs.owner) && |fs.inodes| == |fs.dinodes|
    ensures UnlinkDone(old(fs.St()), fs.St(), dp, name, k, r, panic)
    ensures r != 0 || panic ==> fs.dinodes == old(fs.dinodes) && fs.logged == old(fs.logged)
    ensures r == 0 && !panic ==>
      && DirOk(old(fs.St()), dp) && k < |DirEntries(old(fs.St()), dp)| && DirEntries(old(fs.St()), dp)[k].inum >= 0
      && UnlinkSaved(old(fs.St()), fs.St(), old(fs.dinodes), fs.dinodes, old(fs.logged), fs.logged, dp, k,
                     DirEntries(old(fs.St()), dp)[k].inum)
  {
    hide UnlinkSaved, FsOk, DirOk, DirEntries, Absent, Matches, Removed, EmptyDir, Points, Trim, UnlinkDone, Bytes;
    ghost var s := fs.St();
    r, panic, k := -1, false, 0;
    DotKeys();
    var dot := Strncmp(name, DOT, DIRSIZ);
    var dotdot := Strncmp(name, DOTDOT, DIRSIZ);
    if dot == 0 || dotdot == 0 {
      DoneRefused(s, dp, name, k);
      return;
    }
    var found, inum, at := Dirlookup(fs, dp, name);
    if !found {
      DoneRefused(s, dp, name, k);
      return;
    }
    k := at;
    ThePoints(s, dp, k, Key(name));
    if fs.inodes[inum].nlink < 1 {
      panic := true;      // unlink: nlink < 1
      DonePanic(s, dp, name, k, r);
      return;
    }
    if fs.inodes[inum].typ == T_DIR {
      PointsDir(s, dp, inum);
      var empty := Isdirempty(fs, inum);
      if !empty {
        DoneFull(s, dp, name, k);
        return;
      }
    }
    Remove(fs, dp, at, inum);
    DoneRemoved(s, fs.St(), dp, name, k);
    r := 0;
  }

  lemma DoneRefused(s: Fs, dp: nat, name: seq<int>, k: nat)
    requires DirOk(s, dp)
    requires Key(name) == DOT || Key(name) == DOTDOT || Absent(DirEntries(s, dp), Key(name))
    ensures UnlinkDone(s, s, dp, name, k, -1, false)
  {
    hide DirOk, DirEntries, Absent, Trim;
  }

  lemma DonePanic(s: Fs, dp: nat, name: seq<int>, k: nat, r: int)
    requires DirOk(s, dp) && Key(name) != DOT && Key(name) != DOTDOT && Matches(DirEntries(s, dp), k, Key(name))
    requires Points(s, dp, DirEntries(s, dp)[k].inum) && s.inodes[DirEntries(s, dp)[k].inum].nlink < 1
    ensures UnlinkDone(s, s, dp, name, k, r, true)
  {
    hide DirOk, DirEntries, Trim;
  }

  lemma DoneFull(s: Fs, dp: nat, name: seq<int>, k: nat)
    requires DirOk(s, dp) && Key(name) != DOT && Key(name) != DOTDOT && Matches(DirEntries(s, dp), k, Key(name))
    requires var n := DirEntries(s, dp)[k].inum;
      Points(s, dp, n) && s.inodes[n].nlink >= 1 && s.inodes[n].typ == T_DIR && !EmptyDir(DirEntries(s, n))
    ensures UnlinkDone(s, s, dp, name, k, -1, false)
  {
    hide DirOk, DirEntries, Trim, EmptyDir;
  }

  lemma DoneRemoved(s: Fs, t: Fs, dp: nat, name: seq<int>, k: nat)
    requires DirOk(s, dp) && Key(name) != DOT && Key(name) != DOTDOT && Matches(DirEntries(s, dp), k, Key(name))
    requires var n := DirEntries(s, dp)[k].inum;
      Points(s, dp, n) && s.inodes[n].nlink >= 1 && (s.inodes[n].typ == T_DIR ==> EmptyDir(DirEntries(s, n)))
      && DirOk(t, dp) && Removed(s, t, dp, k, n)
    ensures UnlinkDone(s, t, dp, name, k, 0, false)
  {
    hide DirOk, DirEntries, Trim, EmptyDir, Removed;
  }

  /** Removing a directory leaves its own entries alone: its ".." still has the number
      of the parent, although it no longer counts among the parent's links. */
  lemma DotDotStays(s: Fs, t: Fs, dp: nat, name: seq<int>, k: nat)
    requires UnlinkDone(s, t, dp, name, k, 0, false) && k < |DirEntries(s, dp)|
    requires var n := DirEntries(s, dp)[k].inum;
      0 <= n < |s.inodes| && n != dp && DirOk(s, n) && s.inodes[n].typ == T_DIR && Binds(DirEntries(s, n), DOTDOT, dp)
    ensures var n := DirEntries(s, dp)[k].inum;
      n < |t.inodes| && t.inodes[n].size <= MAXFILE * BSIZE && Binds(Entries(Content(t, n)), DOTDOT, dp)
    ensures |t.inodes| == |s.inodes| && dp < |t.inodes| && t.inodes[dp].nlink == s.inodes[dp].nlink - 1
  {
    hide Entries, Content, Binds, Key, EmptyDir;
  }

  /** Every file but dp keeps its bytes. */
  ghost predicate BytesElse(s: Fs, t: Fs, dp: nat) {
    && Shape(s) && Shape(t) && |t.inodes| == |s.inodes|
    && forall j :: 0 <= j < |s.inodes| && j != dp && s.inodes[j].size <= MAXFILE * BSIZE ==>
         t.inodes[j].size == s.inodes[j].size && Content(t, j) == Content(s, j)
  }

  lemma DotKeys()
    ensures Key(DOT) == DOT && Key(DOTDOT) == DOTDOT && Bytes(DOT) && Bytes(DOTDOT)
  {
    TrimIs(DOT, DIRSIZ, 1);
    TrimIs(DOTDOT, DIRSIZ, 2);
  }

  lemma ThePoints(s: Fs, dp: nat, k: nat, key: seq<int>)
    requires DirOk(s, dp) && Matches(DirEntries(s, dp), k, key)
    requires forall k: nat :: Matches(DirEntries(s, dp), k, key) ==> Points(s, dp, DirEntries(s, dp)[k].inum)
    ensures k < |DirEntries(s, dp)| && Points(s, dp, DirEntries(s, dp)[k].inum) && Live(DirEntries(s, dp), k)
    ensures 0 <= DirEntries(s, dp)[k].inum < |s.inodes|
  {
    hide DirOk, DirEntries, Key;
  }

  lemma PointsDir(s: Fs, dp: nat, inum: nat)
    requires Points(s, dp, inum) && s.inodes[inum].typ == T_DIR
    ensures DirOk(s, inum)
  {
    hide DirOk;
  }

  /** The part of sys_unlink that follows the checks. */
  method Remove(fs: FileSystem, dp: nat, k: nat, inum: nat)
    requires FsOk(fs.St(), fs.owner) && DirOk(fs.St(), dp) && |fs.inodes| == |fs.dinodes|
    requires Live(DirEntries(fs.St(), dp), k) && inum == DirEntries(fs.St(), dp)[k].inum && Points(fs.St(), dp, inum)
    modifies fs`disk, fs`inodes, fs`dinodes, fs`logged, fs`owner
    ensures FsOk(fs.St(), fs.owner) && DirOk(fs.St(), dp)
    ensures inum < |old(fs.inodes)| == |fs.inodes| == |fs.dinodes|
    ensures Removed(old(fs.St()), fs.St(), dp, k, inum)
    ensures UnlinkSaved(old(fs.St()), fs.St(), old(fs.dinodes), fs.dinodes, old(fs.logged), fs.logged, dp, k, inum)
  {
    hide FsOk, DirOk, DirEntries, Content, SameContents, BytesElse, Live, Splice, Encode, Zeroed, Saved, UnlinkSaved;
    hide OtherContents, LinksDropped;
    ghost var s := fs.St();
    DirShape(s, dp);
    LiveBelow(s, dp, k);
    AllMapped(s, fs.owner);
    var dir := fs.inodes[inum].typ == T_DIR;
    var ok := WriteEntry(fs, dp, k, Zeroed());
    ghost var t, d, l := fs.St(), fs.dinodes, fs.logged;
    AllMapped(t, fs.owner);
    UnlinkedDir(s, t, dp, k);
    ElseStart(s, t, dp);
    OtherKinds(s, t, fs.owner, dp);
    EntryStays(s, t, old(fs.dinodes), fs.dinodes, old(fs.logged), fs.logged, dp, k);
    DropLinks(fs, dp, inum, dir);
    ElseMore(s, t, fs.St(), dp);
    DirShape(fs.St(), dp);
    LinksSaved(s, t, fs.St(), old(fs.dinodes), d, fs.dinodes, old(fs.logged), l, fs.logged, dp, k, inum, dir);
    DroppedSince(s, t, fs.St(), dp, inum);
  }

  lemma DroppedSince(s: Fs, t: Fs, u: Fs, dp: nat, inum: nat)
    requires inum < |s.inodes| && t.inodes == s.inodes && LinksDropped(t, u, dp, inum)
    ensures LinksDropped(s, u, dp, inum)
  {}

  /** The link counts: the parent's for a directory, then the file's. */
  method DropLinks(fs: FileSystem, dp: nat, inum: nat, dir: bool)
    requires FsOk(fs.St(), fs.owner) && DirOk(fs.St(), dp) && inum < |fs.inodes| == |fs.dinodes| && inum != dp
    requires dir == (fs.inodes[inum].typ == T_DIR)
    modifies fs`inodes, fs`dinodes, fs`logged
    ensures FsOk(fs.St(), fs.owner) && DirOk(fs.St(), dp) && DirEntries(fs.St(), dp) == DirEntries(old(fs.St()), dp)
    ensures SameContents(old(fs.St()), fs.St()) && LinksDropped(old(fs.St()), fs.St(), dp, inum)
    ensures |fs.inodes| == |old(fs.inodes)| && dp < |fs.inodes|
    ensures fs.dinodes == (if dir then old(fs.dinodes)[dp := fs.inodes[dp]] else old(fs.dinodes))[inum := fs.inodes[inum]]
    ensures fs.logged ==
      old(fs.logged) + (if dir then {InodeBlock(fs.sb, dp)} else {}) + {InodeBlock(fs.sb, inum)}
  {
    hide FsOk, DirEntries, Content, SameContents;
    ghost var s := fs.St();
    SameSelf(s);
    if dir {
      DropLink(fs, dp);
      SameDir(s, fs.St(), fs.owner, dp);
    }
    ghost var u := fs.St();
    DropLink(fs, inum);
    SameDir(u, fs.St(), fs.owner, dp);
    SameMore(s, u, fs.St());
  }

  lemma SameSelf(s: Fs)
    requires Shape(s)
    ensures SameContents(s, s)
  {}

  lemma SameMore(s: Fs, t: Fs, u: Fs)
    requires SameContents(s, t) && SameContents(t, u)
    ensures SameContents(s, u)
  {
    hide Content;
  }

  /** An entry that was there is overwritten in place: the inode stays as it is. */
  lemma EntryStays(s: Fs, t: Fs, d0: seq<Inode>, d1: seq<Inode>, l0: set<nat>, l1: set<nat>, i: nat, k: nat)
    requires DirOk(s, i) && Shape(t) && DESIZE * k < s.inodes[i].size && Saved(s, t, d0, d1, l0, l1, i, k, true)
    ensures t.inodes[i] == s.inodes[i] && DESIZE * k + DESIZE <= MAXFILE * BSIZE && t.sb == s.sb
    ensures |d0| == |t.inodes| && d1 == d0[i := t.inodes[i]]
  {
    EntryMapped(s, i, k);
    EntryBelow(s, i, k);
    var lo, hi := DESIZE * k, DESIZE * k + DESIZE;
    NothingLacks(s, i, lo, hi);
    forall l: nat | l <= NDIRECT ensures t.inodes[i].addrs[l] == s.inodes[i].addrs[l] {
      assert SlotAddr(t, i, l) == t.inodes[i].addrs[l] && SlotAddr(s, i, l) == s.inodes[i].addrs[l];
      assert l !in Lack(s, i, lo, hi);
    }
    assert t.inodes[i].addrs == s.inodes[i].addrs;
  }

  lemma LinksSaved(s: Fs, t: Fs, u: Fs, d0: seq<Inode>, d: seq<Inode>, d1: seq<Inode>, l0: set<nat>, l: set<nat>,
                   l1: set<nat>, dp: nat, k: nat, inum: nat, dir: bool)
    requires Shape(t) && Shape(u) && DESIZE * k + DESIZE <= MAXFILE * BSIZE && inum < |t.inodes| == |u.inodes|
    requires inum != dp
    requires Saved(s, t, d0, d, l0, l, dp, k, true) && LinksDropped(t, u, dp, inum)
    requires dir == (t.inodes[inum].typ == T_DIR)
    requires u.sb == t.sb && u.disk == t.disk
    requires d1 == (if dir then d[dp := u.inodes[dp]] else d)[inum := u.inodes[inum]]
    requires l1 == l + (if dir then {InodeBlock(u.sb, dp)} else {}) + {InodeBlock(u.sb, inum)}
    ensures UnlinkSaved(s, u, d0, d1, l0, l1, dp, k, inum)
  {
    var lo, hi := DESIZE * k, DESIZE * k + DESIZE;
    hide KeepsSlots, Within;
    forall x | FileBlock(t, dp, lo, hi, x) ensures FileBlock(u, dp, lo, hi, x) {
      BlockStill(t, u, dp, lo, hi, x);
    }
    hide FileBlock;
  }

  lemma BlockStill(t: Fs, u: Fs, i: nat, lo: nat, hi: nat, x: nat)
    requires Shape(t) && Shape(u) && i < |t.inodes| == |u.inodes| && u.sb == t.sb && u.disk == t.disk
    requires u.inodes[i].addrs == t.inodes[i].addrs && FileBlock(t, i, lo, hi, x)
    ensures FileBlock(u, i, lo, hi, x)
  {
    forall k | 0 <= k < SLOTS ensures SlotAddr(u, i, k) == SlotAddr(t, i, k) {}
    hide SlotAddr;
    if Holder(t, i, lo, hi, x) {
      var bn :| lo / BSIZE <= bn < MAXFILE && bn * BSIZE < hi && SlotAddr(t, i, DataSlot(bn)) == x;
      assert SlotAddr(u, i, DataSlot(bn)) == x;
    }
  }

  lemma LiveBelow(s: Fs, i: nat, k: nat)
    requires DirOk(s, i) && Live(DirEntries(s, i), k)
    ensures DESIZE * k < s.inodes[i].size && |Zeroed().name| == DIRSIZ
  {
    DirSize(s, i);
  }

  lemma AllMapped(s: Fs, owner: Owner)
    requires FsOk(s, owner)
    ensures Shape(s) && forall j :: 0 <= j < |s.inodes| ==> Mapped(s, j)
  {}

  lemma ElseStart(s: Fs, t: Fs, dp: nat)
    requires OtherContents(s, t, dp)
    ensures BytesElse(s, t, dp)
  {
    hide Content;
  }

  lemma ElseMore(s: Fs, t: Fs, u: Fs, dp: nat)
    requires BytesElse(s, t, dp) && SameContents(t, u)
    ensures BytesElse(s, u, dp)
  {
    hide Content;
    assert |u.inodes| == |s.inodes|;
  }

  lemma OtherKinds(s: Fs, t: Fs, owner: Owner, dp: nat)
    requires OtherContents(s, t, dp) && FsOk(t, owner) && forall j :: 0 <= j < |s.inodes| ==> Mapped(s, j)
    ensures forall j :: 0 <= j < |s.inodes| && j != dp ==> t.inodes[j] == s.inodes[j]
  {
    hide Content;
    forall j | 0 <= j < |s.inodes| && j != dp ensures t.inodes[j] == s.inodes[j] {
      assert Mapped(s, j);
    }
  }

  function Zeroed(): Dirent { Dirent(0, Zeros(DIRSIZ)) }

  lemma ZeroedContent(c: seq<int>, k: nat)
    requires |c| % DESIZE == 0 && Bytes(c) && UniqueNames(Entries(c)) && Live(Entries(c), k)
    ensures var e := Splice(c, DESIZE * k, Encode(Zeroed()));
            |e| % DESIZE == 0 && Bytes(e) && Entries(e) == Entries(c)[k := Zeroed()] && UniqueNames(Entries(e))
  {
    hide Entries, UniqueNames;
    DecodeEncode(Zeroed());
    SpliceEntries(c, |Entries(c)|, k, Encode(Zeroed()));
    ZeroBinds(Entries(c), k, Zeroed(), [], 0);
    SpliceBytes(c, DESIZE * k, Encode(Zeroed()));
  }

  lemma UnlinkedDir(s: Fs, t: Fs, i: nat, k: nat)
    requires DirOk(s, i) && Shape(t) && |t.inodes| == |s.inodes| && Mapped(t, i) && t.inodes[i].typ == T_DIR
    requires Live(DirEntries(s, i), k)
    requires Content(t, i) == Splice(Content(s, i), DESIZE * k, Encode(Zeroed()))
    ensures DirOk(t, i) && DirEntries(t, i) == DirEntries(s, i)[k := Zeroed()]
  {
    hide Shape, Entries, UniqueNames, Splice, Encode, Bytes;
    ZeroedContent(Content(s, i), k);
  }
}
