/** The directory tree an NFS server exports, as a map from component sequences to entries. */
module NasExport {
  type Dir = seq<string>

  /** `p` is `d` or lies below it. */
  predicate Under(d: Dir, p: Dir) {
    d <= p
  }

  datatype Entry = Directory | File(data: string)

  type Export = map<Dir, Entry>

  /** Every entry sits in a directory. */
  predicate ExportOk(ex: Export) {
    && HasDir(ex, [])
    && forall p | p in ex && p != [] :: HasDir(ex, p[..|p| - 1])
  }

  predicate HasDir(ex: Export, d: Dir) {
    d in ex && ex[d].Directory?
  }

  /** The relative paths of what lies below `d`, `d` itself included. */
  function Below(ex: Export, d: Dir): set<Dir> {
    set p | p in ex && Under(d, p) :: p[|d|..]
  }

  lemma BelowIff(ex: Export, d: Dir, r: Dir)
    ensures r in Below(ex, d) <==> d + r in ex
  {
    assert (d + r)[|d|..] == r;
    if r in Below(ex, d) {
      var p :| p in ex && Under(d, p) && r == p[|d|..];
      assert p == d + r;
    }
  }

  /** What lies below `d`, by relative path. */
  function Subtree(ex: Export, d: Dir): map<Dir, Entry> {
    map r | r in Below(ex, d) :: BelowIff(ex, d, r); ex[d + r]
  }

  /** The tree `t` hung at `d`. */
  function Graft(t: map<Dir, Entry>, d: Dir): Export {
    map p | p in (set r | r in t :: d + r) :: GraftIff(t, d, p); t[p[|d|..]]
  }

  lemma GraftIff(t: map<Dir, Entry>, d: Dir, p: Dir)
    ensures p in (set r | r in t :: d + r) <==> Under(d, p) && p[|d|..] in t
  {
    if Under(d, p) {
      assert p == d + p[|d|..];
    }
    if p in (set r | r in t :: d + r) {
      var r :| r in t && p == d + r;
      assert p[|d|..] == r;
    }
  }

  /** os.RemoveAll */
  function Without(ex: Export, d: Dir): Export {
    map p | p in ex && !Under(d, p) :: ex[p]
  }

  /** os.Rename onto a free name. */
  function Moved(ex: Export, from: Dir, to: Dir): Export {
    Without(ex, from) + Graft(Subtree(ex, from), to)
  }

  /** No path lies below both. */
  ghost predicate Apart(a: Dir, b: Dir) {
    forall p: Dir :: !(Under(a, p) && Under(b, p))
  }

  /** os.Rename: an existing target is replaced only by an entry of its kind, a directory only if empty. */
  predicate CanRename(ex: Export, from: Dir, to: Dir) {
    && from in ex
    && (to in ex ==>
          if ex[to].Directory? then ex[from].Directory? && forall p | p in ex :: Under(to, p) ==> p == to
          else ex[from].File?)
  }

  /** os.MkdirAll succeeds when no prefix of the path is a file. */
  predicate CanMkdir(ex: Export, d: Dir) {
    if d in ex then ex[d].Directory? else d != [] && CanMkdir(ex, d[..|d| - 1])
  }

  /** os.MkdirAll */
  function MkdirAll(ex: Export, d: Dir): Export {
    if d in ex || d == [] then ex else MkdirAll(ex, d[..|d| - 1])[d := Directory]
  }

  /** Nothing was lost or changed; only directories were added, all on the way to `d`. */
  ghost predicate GrownTo(ex: Export, ex': Export, d: Dir) {
    && (forall p | p in ex :: p in ex' && ex'[p] == ex[p])
    && (forall p | p in ex' && p !in ex :: ex'[p] == Directory && Under(p, d))
  }

  /** Nothing was lost or changed; only directories were added. */
  ghost predicate Grown(ex: Export, ex': Export) {
    && (forall p | p in ex :: p in ex' && ex'[p] == ex[p])
    && (forall p | p in ex' && p !in ex :: ex'[p] == Directory)
  }

  lemma {:induction false} MkdirAllShape(ex: Export, d: Dir)
    requires ExportOk(ex) && CanMkdir(ex, d)
    ensures var ex' := MkdirAll(ex, d); ExportOk(ex') && HasDir(ex', d) && GrownTo(ex, ex', d)
  {
    hide ExportOk, GrownTo;
    Reflexive(ex, d);
    if d !in ex {
      MkdirAllShape(ex, d[..|d| - 1]);
      AddDirectory(ex, MkdirAll(ex, d[..|d| - 1]), d);
    }
  }

  lemma Reflexive(ex: Export, d: Dir)
    ensures GrownTo(ex, ex, d)
    ensures ExportOk(ex) ==> HasDir(ex, [])
  {
  }

  lemma AddDirectory(ex: Export, ex1: Export, d: Dir)
    requires d != [] && d !in ex && ExportOk(ex1) && HasDir(ex1, d[..|d| - 1]) && GrownTo(ex, ex1, d[..|d| - 1])
    ensures ExportOk(ex1[d := Directory]) && GrownTo(ex, ex1[d := Directory], d)
  {
    var ex2 := ex1[d := Directory];
    forall p | p in ex1 && p !in ex ensures Under(p, d) && p != d {
      UnderParent(p, d);
    }
    NewDirectoryOk(ex1, d);
  }

  lemma NewDirectoryOk(ex: Export, d: Dir)
    requires d != [] && d !in ex && ExportOk(ex) && HasDir(ex, d[..|d| - 1])
    ensures ExportOk(ex[d := Directory])
  {
    var ex2 := ex[d := Directory];
    forall p | p in ex2 && p != [] ensures HasDir(ex2, p[..|p| - 1]) {
      if p != d {
        assert HasDir(ex, p[..|p| - 1]);
      }
    }
  }

  lemma UnderParent(p: Dir, d: Dir)
    requires d != [] && Under(p, d[..|d| - 1])
    ensures Under(p, d) && p != d
  {
    assert d[..|d| - 1][..|p|] == d[..|p|];
  }

  /** With a tree, a free name has nothing below it. */
  lemma {:induction false} NothingBelow(ex: Export, d: Dir, p: Dir)
    requires ExportOk(ex) && p in ex && Under(d, p)
    ensures d in ex
    decreases |p|
  {
    if p != d {
      NothingBelow(ex, d, p[..|p| - 1]);
    }
  }

  /** Two different entries of one directory do not contain each other. */
  lemma SiblingsApart(parent: Dir, a: string, b: string)
    requires a != b
    ensures Apart(parent + [a], parent + [b])
  {
    var x, y := parent + [a], parent + [b];
    forall p: Dir ensures !(Under(x, p) && Under(y, p)) {
      assert x[|parent|] == a && y[|parent|] == b;
    }
  }

  /** Archiving conserves data: the volume's whole subtree reappears under the archived name, its old
      name is free, and every other entry of the export stays as it was. */
  lemma ArchiveConserves(ex: Export, parent: Dir, name: string, archived: string)
    requires ExportOk(ex) && name != archived && parent + [name] in ex && parent + [archived] !in ex
    ensures var vol, arch := parent + [name], parent + [archived]; var ex' := Moved(ex, vol, arch);
      && ExportOk(ex')
      && Subtree(ex', arch) == Subtree(ex, vol)
      && Subtree(ex', vol) == map[]
      && (forall p: Dir | !Under(vol, p) && !Under(arch, p) :: (p in ex' <==> p in ex) && (p in ex ==> ex'[p] == ex[p]))
      && |ex'| == |ex|
  {
    var vol, arch := parent + [name], parent + [archived];
    var ex' := Moved(ex, vol, arch);
    SiblingsApart(parent, name, archived);
    forall p | p in ex ensures !Under(arch, p) {
      if Under(arch, p) {
        NothingBelow(ex, arch, p);
      }
    }
    forall p: Dir ensures p in ex' <==> if Under(arch, p) then vol + p[|arch|..] in ex else p in ex && !Under(vol, p)
      ensures p in ex' ==> ex'[p] == if Under(arch, p) then ex[vol + p[|arch|..]] else ex[p]
    {
      MovedAt(ex, vol, arch, p);
    }
    MovedTree(ex, ex', parent, name, archived);
    MovedSubtree(ex, ex', vol, arch);
    MovedSize(ex, ex', vol, arch);
  }

  lemma MovedAt(ex: Export, vol: Dir, arch: Dir, p: Dir)
    requires Apart(vol, arch) && forall q | q in ex :: !Under(arch, q)
    ensures var ex' := Moved(ex, vol, arch);
      && (p in ex' <==> if Under(arch, p) then vol + p[|arch|..] in ex else p in ex && !Under(vol, p))
      && (p in ex' ==> ex'[p] == if Under(arch, p) then ex[vol + p[|arch|..]] else ex[p])
  {
    GraftIff(Subtree(ex, vol), arch, p);
    if Under(arch, p) {
      BelowIff(ex, vol, p[|arch|..]);
    }
  }

  /** `ex'` is `ex` with what was below `vol` now below `arch`. */
  ghost predicate IsMoved(ex: Export, ex': Export, vol: Dir, arch: Dir) {
    forall p: Dir ::
      && (p in ex' <==> if Under(arch, p) then vol + p[|arch|..] in ex else p in ex && !Under(vol, p))
      && (p in ex' ==> ex'[p] == if Under(arch, p) then ex[vol + p[|arch|..]] else ex[p])
  }

  lemma MovedSubtree(ex: Export, ex': Export, vol: Dir, arch: Dir)
    requires IsMoved(ex, ex', vol, arch) && Apart(vol, arch)
    ensures Subtree(ex', arch) == Subtree(ex, vol)
    ensures Subtree(ex', vol) == map[]
  {
    forall r: Dir ensures r in Below(ex', arch) <==> r in Below(ex, vol)
      ensures vol + r in ex ==> ex'[arch + r] == ex[vol + r]
    {
      BelowIff(ex', arch, r);
      BelowIff(ex, vol, r);
      assert Under(arch, arch + r) && (arch + r)[|arch|..] == r;
    }
    forall r: Dir ensures r !in Below(ex', vol) {
      BelowIff(ex', vol, r);
      assert Under(vol, vol + r);
    }
  }

  lemma MovedTree(ex: Export, ex': Export, parent: Dir, name: string, archived: string)
    requires ExportOk(ex) && parent + [name] in ex
    requires IsMoved(ex, ex', parent + [name], parent + [archived]) && Apart(parent + [name], parent + [archived])
    ensures ExportOk(ex')
  {
    var vol, arch := parent + [name], parent + [archived];
    forall p | p in ex' && p != [] ensures HasDir(ex', p[..|p| - 1]) {
      if Under(arch, p) {
        MovedParent(ex, ex', parent, name, archived, p);
      } else {
        assert HasDir(ex, p[..|p| - 1]);
        ParentOutside(vol, p);
        ParentOutside(arch, p);
      }
    }
    assert [] in ex && !Under(vol, []) && !Under(arch, []);
  }

  lemma ParentOutside(d: Dir, p: Dir)
    requires p != [] && !Under(d, p)
    ensures !Under(d, p[..|p| - 1])
  {
    if Under(d, p[..|p| - 1]) {
      UnderParent(d, p);
    }
  }

  lemma MovedParent(ex: Export, ex': Export, parent: Dir, name: string, archived: string, p: Dir)
    requires ExportOk(ex) && parent + [name] in ex
    requires IsMoved(ex, ex', parent + [name], parent + [archived])
    requires p in ex' && Under(parent + [archived], p)
    ensures HasDir(ex', p[..|p| - 1])
  {
    var vol, arch, q := parent + [name], parent + [archived], p[..|p| - 1];
    if p == arch {
      assert q == parent && vol[..|vol| - 1] == parent && HasDir(ex, parent);
    } else {
      var r := p[|arch|..];
      assert Under(arch, q) && q[|arch|..] == r[..|r| - 1];
      assert (vol + r)[..|vol + r| - 1] == vol + r[..|r| - 1];
      assert HasDir(ex, vol + r[..|r| - 1]);
    }
  }

  lemma MovedSize(ex: Export, ex': Export, vol: Dir, arch: Dir)
    requires IsMoved(ex, ex', vol, arch) && Apart(vol, arch)
    requires forall p | p in ex :: !Under(arch, p)
    ensures |ex'| == |ex|
  {
    var swap := (p: Dir) => if Under(vol, p) then arch + p[|vol|..] else p;
    forall p | p in ex ensures swap(p) in ex' {
      SwapBack(vol, arch, p);
    }
    forall p | p in ex' ensures exists q :: q in ex && swap(q) == p {
      if Under(arch, p) {
        SwapBack(arch, vol, p);
        assert swap(vol + p[|arch|..]) == p;
      } else {
        assert swap(p) == p;
      }
    }
    forall p, q | p in ex && q in ex && swap(p) == swap(q) ensures p == q {
      SwapBack(vol, arch, p);
      SwapBack(vol, arch, q);
    }
    ImageSize(ex.Keys, ex'.Keys, swap);
  }

  lemma SwapBack(from: Dir, to: Dir, p: Dir)
    ensures Under(from, p) ==> to <= to + p[|from|..] && (to + p[|from|..])[|to|..] == p[|from|..] && from + p[|from|..] == p
  {
  }

  lemma {:induction false} ImageSize(a: set<Dir>, b: set<Dir>, f: Dir -> Dir)
    requires forall x | x in a :: f(x) in b
    requires forall y | y in b :: exists x :: x in a && f(x) == y
    requires forall x, y | x in a && y in a && f(x) == f(y) :: x == y
    ensures |a| == |b|
  {
    if a == {} {
      assert b == {};
    } else {
      var x :| x in a;
      forall y | y in b - {f(x)} ensures exists z :: z in a - {x} && f(z) == y {
        var z :| z in a && f(z) == y;
      }
      ImageSize(a - {x}, b - {f(x)}, f);
    }
  }

  /** Removing takes the volume's subtree and nothing else. */
  lemma RemoveTakesOnlyVolume(ex: Export, parent: Dir, name: string)
    requires ExportOk(ex)
    ensures var vol := parent + [name]; var ex' := Without(ex, vol);
      && ExportOk(ex')
      && Subtree(ex', vol) == map[]
      && (forall p | !Under(vol, p) :: (p in ex' <==> p in ex) && (p in ex ==> ex'[p] == ex[p]))
      && (forall sibling | sibling != name :: Subtree(ex', parent + [sibling]) == Subtree(ex, parent + [sibling]))
  {
    var vol := parent + [name];
    var ex' := Without(ex, vol);
    forall p | p in ex' && p != [] ensures HasDir(ex', p[..|p| - 1]) {
      assert HasDir(ex, p[..|p| - 1]);
    }
    forall r: Dir ensures r !in Below(ex', vol) {
      BelowIff(ex', vol, r);
      assert Under(vol, vol + r);
    }
    forall sibling | sibling != name
      ensures Subtree(ex', parent + [sibling]) == Subtree(ex, parent + [sibling])
    {
      var d := parent + [sibling];
      SiblingsApart(parent, name, sibling);
      forall r: Dir ensures r in Below(ex', d) <==> r in Below(ex, d)
        ensures d + r in ex ==> d + r in ex' && ex'[d + r] == ex[d + r]
      {
        BelowIff(ex', d, r);
        BelowIff(ex, d, r);
        assert Under(d, d + r);
      }
    }
  }
}
