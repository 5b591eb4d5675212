/**
 * The calls of std::filesystem that the system makes. Unless the file system is reliable, any of
 * them may fail on its own account, and is counted when it does; a copy that fails may leave a
 * damaged file, a removal that fails may leave part of the tree.
 */
module FileSystems {
  import opened Disks

  datatype Mkdir = Made | AlreadyThere | MkdirFailed

  /**
   * How many calls have failed on their own account, by kind: create_directory, the copying of an
   * entry (create_directories or copy_file), remove_all in the course of a command and in a rollback,
   * and the constructor of a database, with a filesystem_error or with another exception.
   */
  datatype Faults = Faults(makes: int, copies: int, removals: int, rollbacks: int, openings: int, others: int)

  const NO_FAULTS := Faults(0, 0, 0, 0, 0, 0)

  /** What has been added to `before`. */
  function Since(before: Faults, now: Faults): Faults {
    Faults(now.makes - before.makes, now.copies - before.copies, now.removals - before.removals,
           now.rollbacks - before.rollbacks, now.openings - before.openings, now.others - before.others)
  }

  /** A place where a file can be written. */
  predicate CanHold(d: Disk, p: Path) {
    p != [] && !IsDir(d, p) && HasParent(d, p)
  }

  predicate Below(d: Disk, p: Path, r: Path) {
    r in d && p <= r && r != p
  }

  /** Visited so far: entries below `p`, each once, and none before the directory that holds it. */
  ghost predicate Visited(d: Disk, p: Path, entries: seq<Path>) {
    && (forall i :: 0 <= i < |entries| ==> Below(d, p, entries[i]))
    && (forall i, j :: 0 <= i < j < |entries| ==> entries[i] != entries[j])
    && (forall i :: 0 <= i < |entries| ==> Parent(entries[i]) == p || Parent(entries[i]) in entries[..i])
  }

  /** An order in which recursive_directory_iterator may visit all that lies below `p`. */
  ghost predicate IsTraversal(d: Disk, p: Path, entries: seq<Path>) {
    Visited(d, p, entries) && forall r :: Below(d, p, r) ==> r in entries
  }

  class FileSystem {
    var disk: Disk
    const reliable: bool  // no call fails on its own account
    const removes: bool   // no removal does
    ghost var faults: Faults

    constructor (disk: Disk, reliable: bool, removes: bool)
      requires WellFormed(disk)
      ensures this.disk == disk && this.reliable == reliable && this.removes == removes && faults == NO_FAULTS
    {
      this.disk := disk;
      this.reliable, this.removes := reliable, removes;
      faults := NO_FAULTS;
    }

    method CreateDirectory(p: Path) returns (r: Mkdir)
      requires WellFormed(disk)
      modifies this
      ensures WellFormed(disk)
      ensures r == Made ==> p !in old(disk) && HasParent(old(disk), p) && disk == old(disk)[p := Dir]
      ensures r == AlreadyThere <==> IsDir(old(disk), p)
      ensures r != Made ==> disk == old(disk)
      ensures faults == if p !in old(disk) && HasParent(old(disk), p) && r != Made
                        then old(faults).(makes := old(faults).makes + 1) else old(faults)
      ensures reliable ==> faults == old(faults)
    {
      if p in disk {
        return if disk[p] == Dir then AlreadyThere else MkdirFailed;
      }
      if !HasParent(disk, p) {
        return MkdirFailed;
      }
      var fault: bool := *;
      if fault && !reliable {
        faults := faults.(makes := faults.makes + 1);
        return MkdirFailed;
      }
      NewNodeKeepsForm(disk, p, Dir);
      disk := disk[p := Dir];
      r := Made;
    }

    /** Makes `p` and whatever directories are missing above it. */
    method CreateDirectories(p: Path) returns (ok: bool)
      requires WellFormed(disk)
      modifies this
      ensures WellFormed(disk)
      ensures ok ==> IsDir(disk, p)
      ensures p in old(disk) ==> disk == old(disk) && ok == IsDir(old(disk), p)
      ensures p !in old(disk) && HasParent(old(disk), p) ==>
                (ok <==> faults == old(faults)) && disk == if ok then old(disk)[p := Dir] else old(disk)
      ensures faults == old(faults) || (!ok && faults == old(faults).(copies := old(faults).copies + 1))
      ensures reliable ==> faults == old(faults)
      ensures forall r :: r in old(disk) ==> r in disk && disk[r] == old(disk)[r]
      ensures forall r :: r in disk && r !in old(disk) ==> r <= p && disk[r] == Dir
      decreases |p|
    {
      if p in disk {
        return disk[p] == Dir;
      }
      if p != [] {
        var above := CreateDirectories(Parent(p));
        if !above {
          return false;
        }
      }
      ghost var before := faults;
      var r := CreateDirectory(p);
      ok := r == Made;
      if faults != before {
        faults := before.(copies := before.copies + 1);
      }
    }

    method CopyFile(from: Path, to: Path) returns (ok: bool)
      requires WellFormed(disk)
      modifies this
      ensures WellFormed(disk)
      ensures ok ==> from in old(disk) && old(disk)[from].File? && disk == old(disk)[to := old(disk)[from]]
      ensures !ok && disk != old(disk) ==> to in disk && disk[to].File? && disk == old(disk)[to := disk[to]]
      ensures faults == if !ok && from in old(disk) && old(disk)[from].File? && CanHold(old(disk), to)
                        then old(faults).(copies := old(faults).copies + 1) else old(faults)
      ensures reliable ==> faults == old(faults)
    {
      if from !in disk || disk[from] == Dir || !CanHold(disk, to) {
        return false;
      }
      var fault: bool, started: bool, written: seq<bv8> := *, *, *;
      fault := fault && !reliable;
      if fault {
        faults := faults.(copies := faults.copies + 1);
        if !started {
          return false;
        }
      }
      var node := if fault then File(written) else disk[from];
      NewNodeKeepsForm(disk, to, node);
      disk := disk[to := node];
      ok := !fault;
    }

    method RemoveAll(p: Path) returns (ok: bool)
      requires WellFormed(disk)
      modifies this
      ensures WellFormed(disk)
      ensures ok ==> disk == Without(old(disk), p)
      ensures Pruned(old(disk), disk, p)
      ensures faults == if ok then old(faults) else old(faults).(removals := old(faults).removals + 1)
      ensures reliable || removes ==> ok
    {
      var fault: bool := *;
      ok := reliable || removes || !fault;
      if !ok {
        faults := faults.(removals := faults.removals + 1);
      }
      RemovalKeepsForm(disk, p);
      RemovalLeavesNothing(disk, p);
      var left: Disk := *;
      if ok {
        disk := Without(disk, p);
      } else if WellFormed(left) && Pruned(disk, left, p) {
        disk := left;
      }
    }

    /**
     * The loop of backup and restore: every entry below `from` is visited, its prefix `from` is
     * replaced by `to`, and a directory is made or a file copied there.
     */
    method CopyEntries(from: Path, to: Path) returns (ok: bool)
      requires WellFormed(disk) && IsDir(disk, from) && Tree(disk, to) == EMPTY_DIRECTORY
      requires !(from <= to) && !(to <= from)
      modifies this
      ensures WellFormed(disk) && SameOutside(old(disk), disk, to) && IsDir(disk, to)
      ensures ok ==> Tree(disk, to) == Tree(old(disk), from)
      ensures faults == if ok then old(faults) else old(faults).(copies := old(faults).copies + 1)
      ensures reliable ==> ok
    {
      ghost var source, done := disk, {[]};
      var entries := Traverse(from);
      CopyStarts(source, from, to);
      for i := 0 to |entries|
        invariant Copied(source, disk, from, to, done) && DoneBy(from, entries, i, done)
        invariant faults == old(faults)
      {
        ghost var before := disk;
        var relative := entries[i][|from|..];
        NextEntry(source, disk, from, to, entries, i, done);
        ok := CopyEntry(entries[i], to + relative);
        if !ok {
          StoppedCopy(source, before, disk, from, to, entries, i, done, relative);
          return;
        }
        EntryArrived(source, before, from, to, entries, i, done, relative);
        done := done + {relative};
      }
      EveryEntryArrived(source, disk, from, to, entries, done);
      ok := true;
    }

    /** One entry: a directory is made, a file is copied. */
    method CopyEntry(entry: Path, target: Path) returns (ok: bool)
      requires WellFormed(disk) && entry in disk && target != [] && target !in disk && HasParent(disk, target)
      modifies this
      ensures WellFormed(disk)
      ensures ok ==> disk == old(disk)[target := old(disk)[entry]]
      ensures !ok ==> disk == old(disk) || (target in disk && disk == old(disk)[target := disk[target]])
      ensures faults == if ok then old(faults) else old(faults).(copies := old(faults).copies + 1)
      ensures reliable ==> ok
    {
      if disk[entry] == Dir {
        ok := CreateDirectories(target);
      } else {
        ok := CopyFile(entry, target);
      }
    }

    /** The same loop when the target lies inside the source: the iterator walks a tree that grows under
        it, and neither what arrives nor whether it ends is specified. An end with an error is counted. */
    method CopyIntoItself(to: Path) returns (ok: bool)
      requires WellFormed(disk) && IsDir(disk, to)
      modifies this
      ensures WellFormed(disk) && SameOutside(old(disk), disk, to) && IsDir(disk, to)
      ensures faults == if ok then old(faults) else old(faults).(copies := old(faults).copies + 1)
    {
      ok := *;
      if !ok {
        faults := faults.(copies := faults.copies + 1);
      }
      var grown: Disk := *;
      if WellFormed(grown) && SameOutside(disk, grown, to) && IsDir(grown, to) {
        disk := grown;
      }
    }

    /** Any order that visits directories before their entries. */
    method Traverse(p: Path) returns (entries: seq<Path>)
      requires WellFormed(disk) && IsDir(disk, p)
      ensures IsTraversal(disk, p, entries)
    {
      entries := [];
      var left := set r | r in disk && Below(disk, p, r);
      while left != {}
        invariant forall r :: r in left ==> Below(disk, p, r)
        invariant forall r :: Below(disk, p, r) ==> r in left || r in entries
        invariant forall r :: r in left ==> r !in entries
        invariant Visited(disk, p, entries)
        decreases left
      {
        ghost var any :| any in left;
        SomeEntryIsNext(disk, p, left, entries, any);
        var next :| next in left && (Parent(next) == p || Parent(next) in entries);
        VisitNext(disk, p, entries, next);
        left := left - {next};
        entries := entries + [next];
      }
    }
  }

  lemma VisitNext(d: Disk, p: Path, entries: seq<Path>, next: Path)
    requires Visited(d, p, entries) && Below(d, p, next) && next !in entries
    requires Parent(next) == p || Parent(next) in entries
    ensures Visited(d, p, entries + [next])
  {
    var more := entries + [next];
    forall i | 0 <= i < |more| ensures Parent(more[i]) == p || Parent(more[i]) in more[..i] {
      if i < |entries| {
        assert more[..i] == entries[..i];
      } else {
        assert more[..i] == entries;
      }
    }
  }

  /** Climbing from any unvisited entry leads to one whose directory has been visited. */
  lemma {:induction false} SomeEntryIsNext(d: Disk, p: Path, left: set<Path>, entries: seq<Path>, r: Path)
    requires WellFormed(d) && r in left
    requires forall q :: q in left ==> Below(d, p, q)
    requires forall q :: Below(d, p, q) ==> q in left || q in entries
    ensures exists next :: next in left && next != [] && (Parent(next) == p || Parent(next) in entries)
    decreases |r|
  {
    var up := Parent(r);
    assert HasParent(d, r);
    assert up == p || Below(d, p, up);
    if up != p && up !in entries {
      SomeEntryIsNext(d, p, left, entries, up);
    }
  }

  // ----- The copy loop.

  /** How far a copy of the tree at `from` to `to` has come: the relative paths in `done` are there,
      with what the source holds at them, and nothing else is. */
  ghost predicate Copied(source: Disk, d: Disk, from: Path, to: Path, done: set<Path>) {
    && WellFormed(d) && SameOutside(source, d, to)
    && (forall q :: to + q in d <==> q in done)
    && (forall q :: q in done ==> from + q in source && d[to + q] == source[from + q])
  }

  lemma CopyOne(source: Disk, d: Disk, from: Path, to: Path, done: set<Path>, rel: Path)
    requires Copied(source, d, from, to, done) && from + rel in source
    requires rel != [] && rel !in done && HasParent(d, to + rel)
    ensures Copied(source, d[to + rel := source[from + rel]], from, to, done + {rel})
  {
    var d' := d[to + rel := source[from + rel]];
    NewNodeKeepsForm(d, to + rel, source[from + rel]);
    UpdateBelow(d, to, to + rel, source[from + rel]);
    forall q ensures to + q in d' <==> q in done + {rel} {
      assert to + q == to + rel ==> q == (to + q)[|to|..] == (to + rel)[|to|..] == rel;
    }
  }

  /** The directory that a target goes into is there already, because its source came first. */
  lemma ParentIsCopied(source: Disk, d: Disk, from: Path, to: Path, done: set<Path>, rel: Path)
    requires WellFormed(source) && Copied(source, d, from, to, done)
    requires rel != [] && from + rel in source && rel[..|rel| - 1] in done
    ensures HasParent(d, to + rel)
  {
    assert HasParent(source, from + rel);
    assert Parent(from + rel) == from + rel[..|rel| - 1];
    assert Parent(to + rel) == to + rel[..|rel| - 1];
  }

  lemma CopyIsComplete(source: Disk, d: Disk, from: Path, to: Path, done: set<Path>)
    requires Copied(source, d, from, to, done)
    requires forall q :: from + q in source ==> q in done
    ensures Tree(d, to) == Tree(source, from)
  {
  }

  /** `done` is what the first `i` entries stand for, relative to `from`. */
  ghost predicate DoneBy(from: Path, entries: seq<Path>, i: nat, done: set<Path>)
    requires i <= |entries|
  {
    forall q :: q in done <==> q == [] || from + q in entries[..i]
  }

  lemma CopyStarts(source: Disk, from: Path, to: Path)
    requires WellFormed(source) && IsDir(source, from) && Tree(source, to) == EMPTY_DIRECTORY
    ensures Copied(source, source, from, to, {[]})
  {
    assert from + [] == from;
    assert [] in Tree(source, to);
    forall q ensures to + q in source <==> q in {[]} {
      assert q in Tree(source, to) <==> to + q in source;
    }
  }

  lemma NextEntry(source: Disk, d: Disk, from: Path, to: Path, entries: seq<Path>, i: nat, done: set<Path>)
    requires WellFormed(source) && IsTraversal(source, from, entries) && i < |entries|
    requires Copied(source, d, from, to, done) && DoneBy(from, entries, i, done)
    requires !(from <= to) && !(to <= from)
    ensures
      var rel := entries[i][|from|..];
      && from + rel == entries[i] && rel != [] && rel !in done
      && to + rel !in d && HasParent(d, to + rel)
      && entries[i] in source && entries[i] in d && d[entries[i]] == source[entries[i]]
  {
    var entry := entries[i];
    assert Below(source, from, entry);
    var rel := entry[|from|..];
    assert from + rel == entry;
    assert entry !in entries[..i];
    var up := rel[..|rel| - 1];
    assert Parent(entry) == from + up;
    ParentIsCopied(source, d, from, to, done, rel);
    PrefixOfExtension(to, from, rel);
    OutsideKeeps(source, d, to, entry);
  }

  lemma EntryDone(from: Path, entries: seq<Path>, i: nat, done: set<Path>, rel: Path)
    requires i < |entries| && DoneBy(from, entries, i, done) && entries[i] == from + rel
    ensures DoneBy(from, entries, i + 1, done + {rel})
  {
    assert entries[..i + 1] == entries[..i] + [entries[i]];
    forall q ensures q in done + {rel} <==> q == [] || from + q in entries[..i + 1] {
      assert from + q == from + rel ==> q == (from + q)[|from|..] == (from + rel)[|from|..] == rel;
    }
  }

  lemma EntryArrived(source: Disk, d: Disk, from: Path, to: Path, entries: seq<Path>, i: nat, done: set<Path>, rel: Path)
    requires Copied(source, d, from, to, done) && i < |entries| && DoneBy(from, entries, i, done)
    requires entries[i] == from + rel && from + rel in source && rel != [] && rel !in done && HasParent(d, to + rel)
    ensures Copied(source, d[to + rel := source[from + rel]], from, to, done + {rel})
    ensures DoneBy(from, entries, i + 1, done + {rel})
  {
    CopyOne(source, d, from, to, done, rel);
    EntryDone(from, entries, i, done, rel);
  }

  lemma StoppedCopy(source: Disk, d: Disk, d': Disk, from: Path, to: Path, entries: seq<Path>, i: nat, done: set<Path>, rel: Path)
    requires IsDir(source, from) && Copied(source, d, from, to, done) && rel != []
    requires i < |entries| && DoneBy(from, entries, i, done)
    requires d' == d || (to + rel in d' && d' == d[to + rel := d'[to + rel]])
    ensures SameOutside(source, d', to) && IsDir(d', to)
  {
    assert from + [] == from && to + [] == to;
    if d' != d {
      UpdateBelow(d, to, to + rel, d'[to + rel]);
      assert |to + rel| > |to|;
    }
  }

  lemma AllDone(source: Disk, from: Path, entries: seq<Path>, done: set<Path>)
    requires IsTraversal(source, from, entries) && DoneBy(from, entries, |entries|, done)
    ensures forall q :: from + q in source ==> q in done
  {
    assert entries[..|entries|] == entries;
    forall q | from + q in source ensures q in done {
      if q != [] {
        assert Below(source, from, from + q);
      }
    }
  }

  lemma EveryEntryArrived(source: Disk, d: Disk, from: Path, to: Path, entries: seq<Path>, done: set<Path>)
    requires IsTraversal(source, from, entries) && DoneBy(from, entries, |entries|, done)
    requires Copied(source, d, from, to, done) && IsDir(source, from)
    ensures SameOutside(source, d, to) && IsDir(d, to) && Tree(d, to) == Tree(source, from)
  {
    assert IsDir(d, to) by { assert to + [] == to && from + [] == from; }
    AllDone(source, from, entries, done);
    CopyIsComplete(source, d, from, to, done);
  }
}
