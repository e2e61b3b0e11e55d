/**
 What the operations of the very simple file system do, told by paths: which are listed, what
 a directory's entries are and what a file holds.
 */
module VsfsEffects {
  import opened DirEntries
  import opened Sequences
  import opened VsfsState
  import opened VsfsSteps

  /** What a listed file holds: nothing yet, or its one block. */
  datatype Text = Empty | Text(text: string)

  ghost function TextOf(s: State, p: Path): Text
    requires Inv(s) && p in s.files
  {
    TextThere(s, p);
    if s.inodes[s.names[p]].addr == -1 then Empty else Text(s.blocks[s.inodes[s.names[p]].addr].data)
  }

  lemma TextThere(s: State, p: Path)
    requires IndexOk(s) && OwnersOk(s) && p in s.files
    ensures p in s.names && 0 <= s.names[p] < |s.inodes| && s.inodes[s.names[p]].ftype == File
    ensures s.inodes[s.names[p]].addr != -1 ==> 0 <= s.inodes[s.names[p]].addr < |s.blocks|
    ensures s.inodes[s.names[p]].addr != -1 ==> s.blocks[s.inodes[s.names[p]].addr].ftype == File
  {
    assert IsKind(s, p, File);
  }

  /** The entries of a listed directory, in order. */
  ghost function Listing(s: State, p: Path): seq<Entry>
    requires Inv(s) && p in s.dirs
  {
    ListingThere(s, p);
    s.blocks[s.inodes[s.names[p]].addr].dirList
  }

  lemma ListingThere(s: State, p: Path)
    requires IndexOk(s) && OwnersOk(s) && DirsOk(s) && p in s.dirs
    ensures p in s.names && 0 <= s.names[p] < |s.inodes| && s.inodes[s.names[p]].ftype == Dir
    ensures 0 <= s.inodes[s.names[p]].addr < |s.blocks| && s.blocks[s.inodes[s.names[p]].addr].ftype == Dir
  {
    hide DirOk;
    var _ := DirectoryOf(s, p);
  }

  ghost predicate Leads(s: State, p: Path, n: int) {
    p in s.names && s.names[p] == n
  }

  /** Every file that both states list holds the same in both. */
  ghost predicate SameTexts(s: State, s': State)
    requires Inv(s) && Inv(s')
  {
    forall p :: p in s.files && p in s'.files ==> TextOf(s', p) == TextOf(s, p)
  }

  /** Adding a name: it is listed with its inode, last in its directory; a new file is empty, a
      new directory has the entries for itself and its parent, another name leads to the same
      text; and no other path, directory or file is affected. */
  lemma AddSeen(s: State, parent: Path, name: string, n: int, how: How, pn: int, pb: int)
    requires Inv(s) && CanAdd(s, parent, name, n, how, pn, pb)
    ensures var s', path := Added(s, parent, name, n, how, pn, pb), parent + [name];
      && Inv(s') && SameTexts(s, s')
      && s'.names == s.names[path := n]
      && (if how.NewDir? then s'.files == s.files && s'.dirs == s.dirs + [path]
          else s'.dirs == s.dirs && s'.files == s.files + [path])
      && (forall p :: p in s.dirs ==>
            Listing(s', p) == Listing(s, p) + if p == parent then [Entry(name, n)] else [])
      && match how
         case NewFile => TextOf(s', path) == Empty
         case NewDir(_) => Listing(s', path) == [Entry(".", n), Entry("..", pn)]
         case Link => forall p :: p in s.files && Leads(s, p, n) ==> TextOf(s', path) == TextOf(s, p)
  {
    hide Inv;
    AddKeeps(s, parent, name, n, how, pn, pb);
    var s', path := Added(s, parent, name, n, how, pn, pb), parent + [name];
    forall p | p in s.files ensures p in s'.files && TextOf(s', p) == TextOf(s, p) {
      AddedText(s, parent, name, n, how, pn, pb, p);
    }
    forall p | p in s.dirs
      ensures p in s'.dirs && Listing(s', p) == Listing(s, p) + if p == parent then [Entry(name, n)] else []
    {
      AddedListing(s, parent, name, n, how, pn, pb, p);
    }
    NewSeen(s, parent, name, n, how, pn, pb);
  }

  /** Distinct directories have distinct inodes and blocks. */
  lemma OneDirectory(s: State, p: Path, q: Path)
    requires IndexOk(s) && OwnersOk(s) && DirsOk(s) && p in s.dirs && q in s.dirs && p != q
    ensures p in s.names && q in s.names && s.names[p] != s.names[q]
    ensures 0 <= s.names[p] < |s.inodes| && 0 <= s.names[q] < |s.inodes|
    ensures s.inodes[s.names[p]].addr != s.inodes[s.names[q]].addr
  {
    ListingThere(s, p);
    ListingThere(s, q);
  }

  lemma AddedText(s: State, parent: Path, name: string, n: int, how: How, pn: int, pb: int, p: Path)
    requires Inv(s) && CanAdd(s, parent, name, n, how, pn, pb) && p in s.files
    requires Inv(Added(s, parent, name, n, how, pn, pb))
    ensures var s' := Added(s, parent, name, n, how, pn, pb); p in s'.files && TextOf(s', p) == TextOf(s, p)
  {
    hide BitmapsOk, CountsOk, FilesOk, HasName, DirOk, IndexOk, OwnersOk, DirsOk, Mark;
    TextThere(s, p);
    TextThere(Added(s, parent, name, n, how, pn, pb), p);
  }

  lemma AddedListing(s: State, parent: Path, name: string, n: int, how: How, pn: int, pb: int, p: Path)
    requires Inv(s) && CanAdd(s, parent, name, n, how, pn, pb) && p in s.dirs
    requires Inv(Added(s, parent, name, n, how, pn, pb))
    ensures var s' := Added(s, parent, name, n, how, pn, pb);
      && p in s'.dirs
      && Listing(s', p) == Listing(s, p) + if p == parent then [Entry(name, n)] else []
  {
    hide BitmapsOk, CountsOk, FilesOk, HasName, DirOk, IndexOk, OwnersOk, DirsOk, Mark;
    ListingThere(s, p);
    ListingThere(Added(s, parent, name, n, how, pn, pb), p);
    if p != parent { OneDirectory(s, p, parent); }
  }

  lemma NewSeen(s: State, parent: Path, name: string, n: int, how: How, pn: int, pb: int)
    requires Inv(s) && CanAdd(s, parent, name, n, how, pn, pb)
    requires Inv(Added(s, parent, name, n, how, pn, pb))
    ensures var s', path := Added(s, parent, name, n, how, pn, pb), parent + [name];
      match how
      case NewFile => path in s'.files && TextOf(s', path) == Empty
      case NewDir(_) => path in s'.dirs && Listing(s', path) == [Entry(".", n), Entry("..", pn)]
      case Link => path in s'.files && forall p :: p in s.files && Leads(s, p, n) ==> TextOf(s', path) == TextOf(s, p)
  {
    hide BitmapsOk, CountsOk, FilesOk, HasName, DirOk, IndexOk, OwnersOk, DirsOk, Mark;
    var s', path := Added(s, parent, name, n, how, pn, pb), parent + [name];
    if how.NewDir? {
      ListingThere(s', path);
    } else {
      TextThere(s', path);
      forall p | p in s.files && Leads(s, p, n) && how == Link ensures TextOf(s', path) == TextOf(s, p) {
        AddedText(s, parent, name, n, how, pn, pb, p);
      }
    }
  }

  /** Removing a name: it is not listed any more, its directory has the other entries in their
      order, and no other path, directory or file is affected. */
  lemma RemoveSeen(s: State, k: int, i: int, pn: int, pb: int)
    requires Inv(s) && CanRemove(s, k, i, pn, pb)
    ensures var s', path := Removed(s, k, i, pn, pb), s.files[k];
      && Inv(s') && SameTexts(s, s')
      && s'.names == s.names && s'.dirs == s.dirs && path !in s'.files
      && |s'.files| == |s.files| - 1
      && (forall j :: 0 <= j < |s'.files| ==> s'.files[j] == s.files[if j < k then j else j + 1])
      && forall p :: p in s.dirs ==>
           if p == Parent(path) then IsCut(Listing(s, p), Listing(s', p), path[|path| - 1])
           else Listing(s', p) == Listing(s, p)
  {
    hide Inv, Removed, CanRemove;
    RemoveKeeps(s, k, i, pn, pb);
    UniquePaths(s);
    RemovedPaths(s, k, i, pn, pb);
    var s', path := Removed(s, k, i, pn, pb), s.files[k];
    forall p | p in s.files && p in s'.files ensures TextOf(s', p) == TextOf(s, p) { RemovedText(s, k, i, pn, pb, p); }
    forall p | p in s.dirs
      ensures if p == Parent(path) then IsCut(Listing(s, p), Listing(s', p), path[|path| - 1])
              else Listing(s', p) == Listing(s, p)
    {
      RemovedListing(s, k, i, pn, pb, p);
    }
  }

  lemma UniquePaths(s: State)
    requires Inv(s)
    ensures NoDuplicates(s.files)
  {
  }

  lemma RemovedPaths(s: State, k: int, i: int, pn: int, pb: int)
    requires CanRemove(s, k, i, pn, pb) && NoDuplicates(s.files)
    ensures var s' := Removed(s, k, i, pn, pb);
      && 0 <= k < |s.files| && s.files[k] != [] && s'.names == s.names && s'.dirs == s.dirs
      && s.files[k] !in s'.files && |s'.files| == |s.files| - 1
      && forall j :: 0 <= j < |s'.files| ==> s'.files[j] == s.files[if j < k then j else j + 1]
  {
    hide Clear, RemovedBlocks;
    WithoutAt(s.files, k);
  }

  /** What is left when the one entry of this name is taken out. */
  ghost predicate IsCut(was: seq<Entry>, now: seq<Entry>, name: string) {
    && |now| == |was| - 1
    && exists i :: 0 <= i < |was| && CutAt(was, now, name, i)
  }

  ghost predicate CutAt(was: seq<Entry>, now: seq<Entry>, name: string, i: int)
    requires 0 <= i < |was| && |now| == |was| - 1
  {
    was[i].name == name && now == was[..i] + was[i + 1..]
  }

  lemma RemovedText(s: State, k: int, i: int, pn: int, pb: int, p: Path)
    requires Inv(s) && CanRemove(s, k, i, pn, pb) && p in s.files
    requires Inv(Removed(s, k, i, pn, pb)) && p in Removed(s, k, i, pn, pb).files
    ensures TextOf(Removed(s, k, i, pn, pb), p) == TextOf(s, p)
  {
    hide BitmapsOk, CountsOk, FilesOk, HasName, DirOk, IndexOk, OwnersOk, DirsOk, Clear, Without;
    var s' := Removed(s, k, i, pn, pb);
    TextThere(s, p);
    TextThere(s', p);
    OneFile(s, s.names[p], s.names[s.files[k]]);
  }

  lemma OneFile(s: State, n: int, m: int)
    requires OwnersOk(s) && 0 <= n < |s.inodes| && 0 <= m < |s.inodes|
    ensures n != m && s.inodes[n].addr != -1 ==> s.inodes[n].addr != s.inodes[m].addr
  {
  }

  lemma RemovedListing(s: State, k: int, i: int, pn: int, pb: int, p: Path)
    requires Inv(s) && CanRemove(s, k, i, pn, pb) && p in s.dirs && Inv(Removed(s, k, i, pn, pb))
    ensures var s', path := Removed(s, k, i, pn, pb), s.files[k];
      && p in s'.dirs
      && if p == Parent(path) then IsCut(Listing(s, p), Listing(s', p), path[|path| - 1])
         else Listing(s', p) == Listing(s, p)
  {
    hide BitmapsOk, CountsOk, FilesOk, HasName, DirOk, IndexOk, OwnersOk, DirsOk, Clear;
    var s', path := Removed(s, k, i, pn, pb), s.files[k];
    ListingThere(s, p);
    ListingThere(s', p);
    if p != Parent(path) { OneDirectory(s, p, Parent(path)); } else {
      assert CutAt(Listing(s, p), Listing(s', p), path[|path| - 1], i);
    }
  }

  /** Writing: every path of the file reads what was written, and nothing else has changed. */
  lemma WriteSeen(s: State, n: int, fb: int, text: string)
    requires Inv(s) && CanWrite(s, n, fb)
    ensures var s' := Written(s, n, fb, text);
      && Inv(s') && s'.names == s.names && s'.files == s.files && s'.dirs == s.dirs
      && (forall p :: p in s.files ==> TextOf(s', p) == if Leads(s, p, n) then Text(text) else TextOf(s, p))
      && forall p :: p in s.dirs ==> Listing(s', p) == Listing(s, p)
  {
    hide Inv;
    WriteKeeps(s, n, fb, text);
    var s' := Written(s, n, fb, text);
    forall p | p in s.files ensures TextOf(s', p) == if Leads(s, p, n) then Text(text) else TextOf(s, p) {
      WrittenText(s, n, fb, text, p);
    }
    forall p | p in s.dirs ensures Listing(s', p) == Listing(s, p) { WrittenListing(s, n, fb, text, p); }
  }

  lemma WrittenText(s: State, n: int, fb: int, text: string, p: Path)
    requires Inv(s) && CanWrite(s, n, fb) && p in s.files && Inv(Written(s, n, fb, text))
    ensures TextOf(Written(s, n, fb, text), p) == if Leads(s, p, n) then Text(text) else TextOf(s, p)
  {
    hide BitmapsOk, CountsOk, FilesOk, DirOk, IndexOk, OwnersOk, DirsOk, Mark;
    TextThere(s, p);
    TextThere(Written(s, n, fb, text), p);
  }

  lemma WrittenListing(s: State, n: int, fb: int, text: string, p: Path)
    requires Inv(s) && CanWrite(s, n, fb) && p in s.dirs && Inv(Written(s, n, fb, text))
    ensures Listing(Written(s, n, fb, text), p) == Listing(s, p)
  {
    hide BitmapsOk, CountsOk, FilesOk, DirOk, IndexOk, OwnersOk, DirsOk, Mark;
    ListingThere(s, p);
    ListingThere(Written(s, n, fb, text), p);
  }
}
