/** How the NAS driver names server directories.  CreateVolume joins a file system id, a sub path and
    a volume name; NodePublishVolume and DeleteVolume get only the joined path back. */
module NasPaths {
  import Strings
  import opened Paths

  /** getNfsPathDetail (utils.go) */
  function NfsPathDetail(nfsPath: string): (string, string) {
    var list := Split(nfsPath);
    if |list| == 2 then (list[1], "")
    else if |list| >= 3 then (list[1], "/" + Strings.Join(list[2..], '/'))
    else ("", "")
  }

  /** It takes a path that starts with a slash apart behind the first component. */
  lemma DetailParts(fsId: string, rest: string)
    requires SlashFree(fsId)
    ensures NfsPathDetail("/" + fsId) == (fsId, "")
    ensures NfsPathDetail("/" + fsId + "/" + rest) == (fsId, "/" + rest)
  {
    hide Split;
    Strings.SplitFree(fsId, '/');
    Strings.SplitFree("", '/');
    SplitTwo("", fsId);
    assert "" + ['/'] + fsId == "/" + fsId;
    Strings.SplitConcat("/" + fsId, rest, '/');
    Strings.JoinSplit(rest, '/');
    SplitIs("/" + fsId);
    SplitIs("/" + fsId + "/" + rest);
    assert "/" + fsId + "/" + rest == "/" + fsId + ['/'] + rest;
    assert (["", fsId] + Strings.Split(rest, '/'))[2..] == Strings.Split(rest, '/');
  }

  lemma SplitIs(s: string)
    ensures Split(s) == Strings.Split(s, '/')
  {
  }

  /** The path doNfsMount mounts: filepath.Join("/"+fsId, subPath). */
  function MountedPath(fsId: string, subPath: string): (p: string)
    ensures Rooted(p)
  {
    Join("/" + fsId, subPath)
  }

  /** A path as NodePublishVolume trims it. */
  function Trimmed(p: string): string {
    if p != "/" then TrimSlash(p) else p
  }

  /** The path a publish mounts for the volume path `volPath`; `hasFsId` says whether the volume
      context names a file system.  None stands for the empty path, which is refused. */
  function PublishedPath(volPath: string, hasFsId: bool): (p: string)
    requires volPath != ""
    ensures Rooted(p)
  {
    var nfsPath := Trimmed(volPath);
    if hasFsId then MountedPath(NfsPathDetail(nfsPath).0, NfsPathDetail(nfsPath).1)
    else MountedPath("", nfsPath)
  }

  /** `Panics` is the slice with a negative bound that a path without any slash leads to. */
  datatype DeleteTarget = Rejected | Panics | Target(fsId: string, subPath: string, name: string) {
    /** The directory that is mounted. */
    function Parent(): (p: string)
      requires Target?
      ensures Rooted(p)
    {
      MountedPath(fsId, subPath)
    }
  }

  /** What DeleteVolume takes the volume path apart into: the directory it mounts and the entry in it. */
  function DeleteTargetOf(volPath: string): DeleteTarget {
    if volPath == "/" || volPath == "" then Rejected else
      var pvPath := TrimSlash(volPath);
      var pos := LastSlash(pvPath);
      if pos == -1 then Panics else
        var nfsPath := if pvPath[..pos] == "" then "/" else pvPath[..pos];
        Target(NfsPathDetail(nfsPath).0, NfsPathDetail(nfsPath).1, Base(pvPath))
  }

  /** Which volume paths are refused, which lead to the slice, and the last component of the others. */
  lemma DeleteTargetCases(volPath: string)
    ensures DeleteTargetOf(volPath).Rejected? <==> volPath == "" || volPath == "/"
    ensures DeleteTargetOf(volPath).Panics? <==> 
              volPath != "" && volPath != "/" && forall i | 0 <= i < |volPath| - 1 :: volPath[i] != '/'
  {
    hide Split, Base, NfsPathDetail;
    if volPath != "" && volPath != "/" {
      var p, pos := TrimSlash(volPath), LastSlash(TrimSlash(volPath));
      assert pos >= 0 ==> volPath[pos] == '/';
      assert pos == -1 ==> forall i | 0 <= i < |p| :: p[i] != '/' && volPath[i] == p[i];
    }
  }

  /** The path CreateVolume records for the volume. */
  function VolumePath(fsId: string, subPath: string, pvName: string): string {
    Join(MountedPath(fsId, subPath), pvName)
  }

  lemma RootedSplit(p: string)
    requires Rooted(p)
    ensures Split(p) == [""] + Split(p[1..]) && |Split(p)| >= 2
  {
  }

  /** The parts of any path, joined again, denote what its components after the first lead to. */
  lemma DetailComponents(q: string)
    ensures MountedPath(NfsPathDetail(q).0, NfsPathDetail(q).1) == PathOf(Follow([], Split(q)[1..]))
  {
    var list := Split(q);
    var (fsId, subPath) := NfsPathDetail(q);
    JoinDenotes("/" + fsId, subPath);
    Strings.SplitFree("", '/');
    FsIdDenotes(fsId);
    var at := Follow([], [fsId]);
    if |list| == 1 {
      FollowOne([], "");
      assert list[1..] == [] && Follow([], []) == [];
    } else if |list| == 2 {
      assert list[1..] == [fsId];
      FollowOne(at, "");
    } else {
      var rest := list[2..];
      Strings.SplitJoin(rest, '/');
      RootedSplit(subPath);
      assert subPath[1..] == Strings.Join(rest, '/');
      FollowConcat(at, [""], rest);
      FollowOne(at, "");
      FollowConcat([], [fsId], rest);
      assert list[1..] == [fsId] + rest;
    }
  }

  /** Taking a rooted path apart and joining the parts gives its clean form. */
  lemma DetailJoins(p: string)
    requires Rooted(p)
    ensures MountedPath(NfsPathDetail(p).0, NfsPathDetail(p).1) == Clean(p)
  {
    hide MountedPath, NfsPathDetail;
    RootedSplit(p);
    DetailComponents(p);
    FollowConcat([], [""], Split(p)[1..]);
    FollowOne([], "");
  }

  lemma FsIdDenotes(fsId: string)
    requires SlashFree(fsId)
    ensures Components("/" + fsId) == Follow([], [fsId])
  {
    RootedSplit("/" + fsId);
    assert ("/" + fsId)[1..] == fsId;
    Strings.SplitFree(fsId, '/');
    FollowConcat([], [""], [fsId]);
    FollowOne([], "");
  }

  lemma MountedPathClean(fsId: string, subPath: string)
    ensures MountedPath(fsId, subPath) == PathOf(Components(MountedPath(fsId, subPath)))
    ensures AllPlain(Components(MountedPath(fsId, subPath)))
  {
    CleanDenotes("/" + fsId + "/" + subPath);
    ComponentsPlain(MountedPath(fsId, subPath));
  }

  /** A publish mounts the directory its volume path denotes, whether or not the file system is named. */
  lemma PublishMountsVolumePath(volPath: string, hasFsId: bool)
    requires Rooted(volPath)
    ensures PublishedPath(volPath, hasFsId) == Clean(volPath)
  {
    var p := Trimmed(volPath);
    if volPath != "/" {
      TrimDenotes(volPath);
    }
    assert Rooted(p);
    if hasFsId {
      DetailJoins(p);
    } else {
      JoinDenotes("/", p);
      assert "/" + "" == "/";
      PathOfComponents([]);
      assert PathOf([]) == "/";
    }
  }

  lemma TrimDenotes(p: string)
    requires Rooted(p) && p != "/"
    ensures Components(TrimSlash(p)) == Components(p)
  {
    if p[|p| - 1] == '/' {
      var q := TrimSlash(p);
      assert p == q + "/" + "";
      Strings.SplitConcat(q, "", '/');
      Strings.SplitFree("", '/');
      FollowConcat([], Split(q), [""]);
      FollowOne(Components(q), "");
    }
  }

  predicate Recovers(t: DeleteTarget, parent: string, name: string) {
    t.Target? && t.Parent() == parent && t.name == name
  }

  /** Create, publish and delete address one server directory: for every file system id the driver
      accepts and every sub path, the recorded path is the mounted directory plus the volume name,
      publish mounts exactly it, and delete recovers exactly the directory and the name that create
      used if and only if the name is a single path component. */
  lemma CreatePublishDeleteAgree(fsId: string, subPath: string, pvName: string, hasFsId: bool)
    requires SlashFree(fsId)
    ensures var parent := MountedPath(fsId, subPath); var path := VolumePath(fsId, subPath, pvName);
      && PublishedPath(path, hasFsId) == path
      && (Plain(pvName) ==> Components(path) == Components(parent) + [pvName])
      && (Recovers(DeleteTargetOf(path), parent, pvName) <==> Plain(pvName))
  {
    hide Components, Join, PathOf, TrimSlash, LastSlash, Base, NfsPathDetail, DeleteTargetOf;
    var parent, path := MountedPath(fsId, subPath), VolumePath(fsId, subPath, pvName);
    PublishMountsVolumePath(path, hasFsId);
    CleanDenotes(parent + "/" + pvName);
    JoinIsClean(parent, pvName);
    MountedPathClean(fsId, subPath);
    ComponentsPlain(path);
    DeleteNamesPlain(Components(path));
    if Plain(pvName) {
      JoinPlain(parent, pvName);
      DeleteRecovers(Components(parent), pvName);
    }
  }

  lemma JoinIsClean(a: string, b: string)
    requires Rooted(a)
    ensures Join(a, b) == Clean(a + "/" + b) == PathOf(Components(Join(a, b)))
  {
    CleanDenotes(a + "/" + b);
  }

  /** A delete of a clean path never names anything but a directory entry. */
  lemma DeleteNamesPlain(dir: seq<string>)
    requires AllPlain(dir)
    ensures var t := DeleteTargetOf(PathOf(dir)); t.Target? ==> Plain(t.name)
  {
    if dir == [] {
      assert PathOf([]) == "/";
    } else {
      var parent, last := dir[..|dir| - 1], dir[|dir| - 1];
      assert dir == parent + [last];
      DeleteRecovers(parent, last);
    }
  }

  lemma DeleteRecovers(dir: seq<string>, name: string)
    requires AllPlain(dir) && Plain(name)
    ensures Recovers(DeleteTargetOf(PathOf(dir + [name])), PathOf(dir), name)
  {
    LastComponent(dir, name);
    assert PathOf([]) == "/";
    PathOfComponents(dir);
    DetailJoins(PathOf(dir));
    assert |PathOf(dir + [name])| >= 2;
  }

  lemma TrimmedSplit(p: string)
    requires p != ""
    ensures var list := Split(Trimmed(p)); |list| >= 1 && Strings.AllFree(list, '/') && Strings.AllFree(list[1..], '/')
  {
  }

  /** What a publish mounts, component by component: with the file system named, everything but the
      first component of the path, which is taken for the empty one in front of a slash. */
  lemma PublishedComponents(p: string)
    requires p != ""
    ensures var list := Split(Trimmed(p));
      && PublishedPath(p, false) == PathOf(Follow([], list))
      && PublishedPath(p, true) == PathOf(Follow([], list[1..]))
  {
    var q := Trimmed(p);
    var list := Split(q);
    PathOfComponents([]);
    assert PathOf([]) == "/" && "/" + "" == "/";
    JoinDenotes("/", q);
    DetailComponents(q);
  }

  /** A volume path written by an administrator need not be rooted.  For every path, naming the file
      system leaves what publish mounts unchanged if and only if the first component names nothing, as
      in a rooted path, or the rest climbs back over it; otherwise publish drops that component. */
  lemma UnrootedPathMisread(p: string)
    requires p != ""
    ensures var list := Split(Trimmed(p));
      PublishedPath(p, true) == PublishedPath(p, false) <==> !Plain(list[0]) || !NeverClimbs(list[1..])
  {
    hide Split, PublishedPath, Trimmed, Follow, PathOf, Components, NeverClimbs, Climb;
    TrimmedSplit(p);
    var list := Split(Trimmed(p));
    var rest := list[1..];
    PublishedComponents(p);
    assert list == [list[0]] + rest;
    FollowConcat([], [list[0]], rest);
    FollowOne([], list[0]);
    FollowIsPlain([], list);
    FollowIsPlain([], rest);
    PathOfComponents(Follow([], list));
    PathOfComponents(Follow([], rest));
    NeverClimbsIff(rest);
    OneAbove(list[0], rest);
    assert Plain(list[0]) ==> Follow([], [list[0]]) == [list[0]];
  }

  lemma OneAbove(first: string, rest: seq<string>)
    ensures Follow([first], rest) == Follow([], rest) <==> Ups(rest) > 0
  {
    hide Climb;
    FollowClimbs([], rest);
    FollowClimbs([first], rest);
    assert [] + Tail(rest) == Tail(rest);
    assert [first][..0] == [] && [first][..1] == [first];
    assert |[first] + Tail(rest)| == 1 + |Tail(rest)|;
  }
}
