/** What a partition stands for once all its parts agree: a directory tree, and the contents of the
    files in it. */
module Volumes {
  import opened Disks
  import opened Inodes
  import opened Ownership
  import opened Files
  import opened Release
  import opened Dirs
  import opened DirOps
  import opened Formats
  import opened Trees
  import opened TreeDisk

  /** The live inodes, which of them are directories, the disk, and the block bitmap. */
  datatype Volume = Volume(inodes: map<nat, InodeData>, dirs: set<nat>, a: seq<Sector>, bits: seq<bool>, lo: nat)
  {
    ghost function Maps(): map<nat, BlockMap> {
      map i | i in inodes :: inodes[i].sectors
    }

    ghost function DirMaps(): map<nat, BlockMap> {
      map d | d in inodes && d in dirs :: inodes[d].sectors
    }

    ghost function AsTree(): Tree {
      TreeOn(a, DirMaps())
    }

    ghost function AsFiles(): map<nat, seq<byte>> {
      map i | i in inodes && i !in dirs :: Contents(a, inodes[i])
    }

    ghost predicate InodeOk(i: nat) {
      i in inodes && inodes[i].no as int == i &&
      if i in dirs then DirOk(a, inodes[i], lo, lo + |bits|) else FileOk(a, inodes[i], lo, lo + |bits|)
    }

    /** The block bitmap is exactly what the inodes own, and each inode is a well-formed file or a
        well-formed directory. */
    ghost predicate Sound() {
      Agree(Maps(), a, bits, lo) && dirs <= inodes.Keys && forall i :: i in inodes ==> InodeOk(i)
    }

    /** Inode `i` becomes `d`. */
    ghost function With(i: nat, d: InodeData, a': seq<Sector>, bits': seq<bool>): Volume {
      Volume(inodes[i := d], dirs, a', bits', lo)
    }
  }

  lemma SoundInode(v: Volume, i: nat)
    requires v.Sound() && i in v.inodes
    ensures v.InodeOk(i) && i in v.Maps() && v.Maps()[i] == v.inodes[i].sectors && 0 in v.inodes && v.lo + |v.bits| <= |v.a|
  {
    hide Volume.InodeOk, Agree;
    InsideDisk(v.Maps(), v.a, v.bits, v.lo);
  }

  // ----- an inode whose blocks are kept

  lemma KeptFile(a: seq<Sector>, a': seq<Sector>, d: InodeData, lo: nat, hi: nat)
    requires KeptIn(d.sectors, a, a') && FileOk(a, d, lo, hi)
    ensures FileOk(a', d, lo, hi) && Contents(a', d) == Contents(a, d)
  {
    hide FileOk, Contents, KeptIn;
    var files: map<nat, BlockMap> := map[d.no as nat := d.sectors];
    OtherFilesUnchanged(files, d.no + 1, a, a', d, lo, hi);
  }

  /** The same inode in both volumes, of the same kind, over kept blocks. */
  lemma InodeKept(v: Volume, w: Volume, i: nat)
    requires v.InodeOk(i) && i in w.inodes && w.inodes[i] == v.inodes[i] && (i in w.dirs <==> i in v.dirs)
    requires w.lo == v.lo && |w.bits| == |v.bits| && KeptIn(v.inodes[i].sectors, v.a, w.a)
    ensures w.InodeOk(i)
    ensures if i in v.dirs then Slots(w.a, w.inodes[i].sectors) == Slots(v.a, v.inodes[i].sectors)
            else Contents(w.a, w.inodes[i]) == Contents(v.a, v.inodes[i])
  {
    hide DirOk, FileOk, Slots, Contents, KeptIn;
    if i in v.dirs { KeptDir(v.a, w.a, v.inodes[i], v.lo, v.lo + |v.bits|); }
    else { KeptFile(v.a, w.a, v.inodes[i], v.lo, v.lo + |v.bits|); }
  }

  // ----- one inode changes, or is new

  ghost predicate SameElse(v: Volume, w: Volume, i: nat, d: InodeData) {
    && w.inodes == v.inodes[i := d] && (w.dirs == v.dirs || w.dirs == v.dirs + {i}) && w.lo == v.lo && |w.bits| == |v.bits|
    && (i in v.inodes ==> w.dirs == v.dirs)
  }

  lemma MapsWith(v: Volume, w: Volume, i: nat, d: InodeData)
    requires w.inodes == v.inodes[i := d]
    ensures w.Maps() == v.Maps()[i := d.sectors]
  {
  }

  /** Inode `j` is in `w` what it was in `v`. */
  ghost predicate SameIn(v: Volume, w: Volume, j: nat) {
    && j in v.inodes && j in w.inodes && w.inodes[j] == v.inodes[j] && (j in w.dirs <==> j in v.dirs) && w.InodeOk(j)
    && if j in v.dirs then Slots(w.a, w.inodes[j].sectors) == Slots(v.a, v.inodes[j].sectors)
       else Contents(w.a, w.inodes[j]) == Contents(v.a, v.inodes[j])
  }

  lemma TreeWith(v: Volume, w: Volume, i: nat, d: InodeData)
    requires SameElse(v, w, i, d) && forall j :: j in v.inodes && j != i ==> SameIn(v, w, j)
    ensures w.AsTree() == if i in w.dirs then v.AsTree()[i := Slots(w.a, d.sectors)] else v.AsTree()
  {
    hide Volume.InodeOk, Slots, Contents;
  }

  lemma FilesWith(v: Volume, w: Volume, i: nat, d: InodeData)
    requires SameElse(v, w, i, d) && forall j :: j in v.inodes && j != i ==> SameIn(v, w, j)
    ensures w.AsFiles() == if i in w.dirs then v.AsFiles() else v.AsFiles()[i := Contents(w.a, d)]
  {
    hide Volume.InodeOk, Slots, Contents;
  }

  lemma SoundWith(v: Volume, w: Volume, i: nat, d: InodeData)
    requires SameElse(v, w, i, d) && w.InodeOk(i) && forall j :: j in v.inodes && j != i ==> SameIn(v, w, j)
    requires Agree(v.Maps()[i := d.sectors], w.a, w.bits, w.lo) && v.dirs <= v.inodes.Keys
    ensures w.Sound()
  {
    hide Volume.InodeOk, Slots, Contents, Agree;
    MapsWith(v, w, i, d);
  }

  /** If the others keep their blocks, and the changed inode is well formed, so is the volume; the
      tree and the contents change at that inode only. */
  lemma Changed(v: Volume, w: Volume, i: nat, d: InodeData)
    requires SameElse(v, w, i, d) && w.InodeOk(i) && OthersKept(v.Maps(), i, v.a, w.a)
    requires Agree(v.Maps()[i := d.sectors], w.a, w.bits, w.lo) && v.Sound()
    ensures w.Sound()
    ensures w.AsTree() == if i in w.dirs then v.AsTree()[i := Slots(w.a, d.sectors)] else v.AsTree()
    ensures w.AsFiles() == if i in w.dirs then v.AsFiles() else v.AsFiles()[i := Contents(w.a, d)]
  {
    hide Slots, Contents, KeptIn, Agree, Volume.InodeOk, Volume.AsTree, Volume.AsFiles;
    forall j | j in v.inodes && j != i ensures SameIn(v, w, j) {
      SoundInode(v, j);
      assert KeptIn(v.Maps()[j], v.a, w.a);
      InodeKept(v, w, j);
    }
    hide Volume.Maps;
    SoundWith(v, w, i, d);
    TreeWith(v, w, i, d);
    FilesWith(v, w, i, d);
  }

  /** Directories come, go and change; the others stay what they were. */
  ghost predicate OnlyDirs(v: Volume, w: Volume, changed: set<nat>) {
    && w.lo == v.lo && |w.bits| == |v.bits| && w.dirs <= w.inodes.Keys
    && (forall j :: j in w.inodes ==> if j in changed then j in w.dirs && w.InodeOk(j) else SameIn(v, w, j))
    && forall j :: j in v.inodes && j !in v.dirs ==> j in w.inodes && j !in changed
  }

  lemma DirsChanged(v: Volume, w: Volume, changed: set<nat>)
    requires OnlyDirs(v, w, changed) && Agree(w.Maps(), w.a, w.bits, w.lo)
    ensures w.Sound() && w.AsFiles() == v.AsFiles()
  {
    hide Slots, Contents, Agree, Volume.InodeOk, Volume.Maps;
    assert forall j :: j in w.inodes ==> w.InodeOk(j);
    assert w.AsFiles().Keys == v.AsFiles().Keys;
  }

  /** Sectors in front of the data area are rewritten. */
  lemma Rewritten(v: Volume, a': seq<Sector>)
    requires |a'| == |v.a| && (forall x :: v.lo <= x < |v.a| ==> a'[x] == v.a[x])
    requires v.Sound()
    ensures var w := v.(a := a'); w.Sound() && w.AsTree() == v.AsTree() && w.AsFiles() == v.AsFiles()
  {
    hide Slots, Contents, KeptIn, Agree, Volume.InodeOk, Volume.AsTree, Volume.AsFiles;
    var w := v.(a := a');
    SameAgreement(v.Maps(), v.a, v.bits, v.lo, a');
    forall j | j in v.inodes ensures SameIn(v, w, j) {
      SoundInode(v, j);
      DataKept(v.Maps(), v.a, v.bits, v.lo, j, a');
      InodeKept(v, w, j);
    }
    SameAll(v, w);
  }

  lemma SameAll(v: Volume, w: Volume)
    requires w == v.(a := w.a) && forall j :: j in v.inodes ==> SameIn(v, w, j)
    ensures w.AsTree() == v.AsTree() && w.AsFiles() == v.AsFiles() && w.Maps() == v.Maps()
  {
    hide Volume.InodeOk, Slots, Contents;
  }

  /** An inode is released. */
  lemma Dropped(v: Volume, w: Volume, i: nat)
    requires w.inodes == v.inodes - {i} && w.dirs == v.dirs - {i} && w.a == v.a && w.lo == v.lo && |w.bits| == |v.bits|
    requires Agree(v.Maps() - {i}, w.a, w.bits, w.lo)
    requires v.Sound()
    ensures w.Sound() && w.AsTree() == v.AsTree() - {i} && w.AsFiles() == v.AsFiles() - {i}
  {
    hide Slots, Contents, Agree, DirOk, FileOk;
    assert w.Maps() == v.Maps() - {i};
    forall j | j in w.inodes ensures w.InodeOk(j) {
      assert v.InodeOk(j);
    }
  }

  // ----- the steps of the operations

  lemma DirOfVolume(v: Volume, p: nat)
    requires p in v.dirs && v.Sound()
    ensures p in v.inodes && DirState(v.Maps(), v.a, v.bits, v.lo, v.inodes[p]) && p in v.AsTree()
    ensures v.AsTree()[p] == Slots(v.a, v.inodes[p].sectors) && v.inodes[p].no as int == p
  {
    hide Agree, DirOk, FileOk, Slots;
    assert v.InodeOk(p);
  }

  /** A directory has got an entry. */
  lemma EntryAdded(v: Volume, p: nat, k: nat, e: DirEntry, a': seq<Sector>, bits': seq<bool>, d': InodeData)
    requires p in v.dirs && v.Sound()
    requires p in v.inodes && Added(v.Maps(), v.a, v.bits, v.lo, v.inodes[p], k, e, a', bits', d')
    ensures var w := v.With(p, d', a', bits');
            w.Sound() && w.AsTree() == WithSlot(v.AsTree(), p, k, e) && w.AsFiles() == v.AsFiles()
  {
    hide Agree, DirOk, FileOk, Slots, DirMap, OthersKept, Volume.AsTree, Volume.AsFiles, Volume.Sound, Volume.Maps;
    DirOfVolume(v, p);
    Changed(v, v.With(p, d', a', bits'), p, d');
  }

  /** A new file without contents. */
  lemma FileAdded(v: Volume, i: u32)
    requires i as nat !in v.inodes && i as nat !in v.dirs && v.Sound()
    ensures var w := v.With(i, InodeData(i, 0, EMPTY), v.a, v.bits);
            w.Sound() && w.AsTree() == v.AsTree() && w.AsFiles() == v.AsFiles()[i as nat := []]
  {
    hide Agree, DirOk, FileOk, Slots, Contents, KeptIn, Volume.AsTree, Volume.AsFiles;
    var d := InodeData(i, 0, EMPTY);
    NewInodeAgrees(v.Maps(), v.a, v.bits, v.lo, i);
    NewFileIsFile(v.a, i, v.lo, v.lo + |v.bits|);
    forall j | j in v.Maps() && j != i as nat ensures KeptIn(v.Maps()[j], v.a, v.a) {
      SameKept(v.Maps(), v.a, v.bits, v.lo, j);
    }
    Changed(v, v.With(i, d, v.a, v.bits), i, d);
  }
}
