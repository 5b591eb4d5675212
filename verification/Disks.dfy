/** A disk as a finite map from paths to nodes, and the trees inside it. */
module Disks {

  type Name = string
  type Path = seq<Name>
  datatype Node = Dir | File(content: seq<bv8>)
  type Disk = map<Path, Node>

  predicate IsDir(d: Disk, p: Path) {
    p in d && d[p] == Dir
  }

  function Parent(p: Path): Path
    requires p != []
  {
    p[..|p| - 1]
  }

  predicate HasParent(d: Disk, p: Path) {
    p == [] || IsDir(d, Parent(p))
  }

  /** The root, if it is there, is a directory, and so is the parent of everything else. */
  predicate WellFormed(d: Disk) {
    ([] in d ==> IsDir(d, [])) && forall p :: p in d ==> HasParent(d, p)
  }

  /** The disk without `p` and everything below it. */
  function Without(d: Disk, p: Path): Disk {
    map r | r in d && !(p <= r) :: d[r]
  }

  /** Only `p` and what lies below it may differ. */
  predicate SameOutside(d: Disk, d': Disk, p: Path) {
    Without(d, p) == Without(d', p)
  }

  /** What is left of `r` below `p`. */
  function Relative(p: Path, r: Path): Path
    requires p <= r
  {
    r[|p|..]
  }

  function Relatives(d: Disk, p: Path): set<Path> {
    set r {:trigger Relative(p, r)} | r in d && p <= r :: Relative(p, r)
  }

  lemma RelativesAt(d: Disk, p: Path, q: Path)
    ensures q in Relatives(d, p) <==> p + q in d
  {
    if p + q in d {
      assert Relative(p, p + q) == q;
    }
    if q in Relatives(d, p) {
      var r :| r in d && p <= r && Relative(p, r) == q;
      assert p + q == r;
    }
  }

  /** The tree under `p`, with paths relative to it; the path [] stands for `p` itself. */
  function Tree(d: Disk, p: Path): (t: Disk)
    ensures forall q {:trigger p + q} :: q in t <==> p + q in d
    ensures forall q {:trigger p + q} :: q in t ==> t[q] == d[p + q]
  {
    assert forall q :: q in Relatives(d, p) <==> p + q in d by {
      forall q ensures q in Relatives(d, p) <==> p + q in d { RelativesAt(d, p, q); }
    }
    map q | q in Relatives(d, p) :: d[p + q]
  }

  const EMPTY_DIRECTORY: Disk := map[[] := Dir]

  lemma OutsideKeeps(d: Disk, d': Disk, p: Path, r: Path)
    requires SameOutside(d, d', p) && !(p <= r)
    ensures r in d <==> r in d'
    ensures r in d ==> d[r] == d'[r]
  {
    assert r in d <==> r in Without(d, p);
    assert r in d' <==> r in Without(d', p);
    if r in d {
      assert Without(d, p)[r] == d[r] && Without(d', p)[r] == d'[r];
    }
  }

  /** A change below `p` does not reach a tree that neither contains `p` nor lies in it. */
  lemma OutsideKeepsTree(d: Disk, d': Disk, p: Path, q: Path)
    requires SameOutside(d, d', p) && !(p <= q) && !(q <= p)
    ensures Tree(d, q) == Tree(d', q)
  {
    forall r
      ensures q + r in d <==> q + r in d'
      ensures q + r in d ==> d[q + r] == d'[q + r]
    {
      PrefixOfExtension(p, q, r);
      OutsideKeeps(d, d', p, q + r);
    }
  }

  lemma PrefixOfExtension(p: Path, q: Path, r: Path)
    ensures p <= q + r ==> p <= q || q <= p
  {
  }

  lemma UpdateBelow(d: Disk, p: Path, r: Path, n: Node)
    requires p <= r
    ensures SameOutside(d, d[r := n], p)
  {
  }

  lemma NewNodeKeepsForm(d: Disk, r: Path, n: Node)
    requires WellFormed(d) && HasParent(d, r) && !IsDir(d, r) && (r == [] ==> n == Dir)
    ensures WellFormed(d[r := n])
  {
  }

  lemma RemovalKeepsForm(d: Disk, p: Path)
    requires WellFormed(d)
    ensures WellFormed(Without(d, p))
  {
  }

  lemma RemovalLeavesNothing(d: Disk, p: Path)
    ensures SameOutside(d, Without(d, p), p)
    ensures Tree(Without(d, p), p) == map[]
  {
  }

  /** Some of what is under `p` is gone, the rest as it was. */
  predicate Pruned(d: Disk, d': Disk, p: Path) {
    SameOutside(d, d', p) && forall r :: r in d' ==> r in d && d'[r] == d[r]
  }

  lemma {:induction false} PrefixesExist(d: Disk, p: Path, r: Path)
    requires WellFormed(d) && r in d && p <= r
    ensures p in d
    decreases |r|
  {
    if p != r {
      assert HasParent(d, r);
      PrefixesExist(d, p, Parent(r));
    }
  }

  lemma NothingBelow(d: Disk, p: Path)
    requires WellFormed(d) && p !in d
    ensures forall r :: p <= r ==> r !in d
  {
    forall r | p <= r ensures r !in d {
      if r in d {
        PrefixesExist(d, p, r);
      }
    }
  }

  lemma NewDirectory(d: Disk, p: Path)
    requires WellFormed(d) && p !in d
    ensures SameOutside(d, d[p := Dir], p)
    ensures Tree(d[p := Dir], p) == EMPTY_DIRECTORY
  {
    NothingBelow(d, p);
    UpdateBelow(d, p, p, Dir);
    var t := Tree(d[p := Dir], p);
    assert p + [] == p;
    forall q ensures q in t <==> q == [] {
      if q != [] {
        assert |p + q| > |p| && p <= p + q;
      }
    }
  }

  /** Removing a directory that was made afresh, with all that came into it, restores the disk. */
  lemma RemovalUndoes(d: Disk, d': Disk, p: Path)
    requires WellFormed(d) && p !in d && SameOutside(d, d', p)
    ensures Without(d', p) == d
  {
    NothingBelow(d, p);
    assert Without(d, p) == d;
  }

  lemma SourceStays(d: Disk, d': Disk, p: Path, q: Path)
    requires SameOutside(d, d', p) && !(p <= q) && IsDir(d, q)
    ensures IsDir(d', q)
  {
    OutsideKeeps(d, d', p, q);
  }
}
