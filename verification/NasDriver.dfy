/** What the NAS driver computes around its mounts: mount point names, paths that climb, storage class
    parameters and the outcome of a delete. */
module NasDriver {
  import Strings
  import opened Paths
  import opened NasPaths
  import opened NasExport

  const MNT_ROOT: Dir := ["csi-persistentvolumes"]
  const TEMP_ROOT: Dir := ["mnt", "ecs_mnt", "k8s_nas", "temp"]

  /** /csi-persistentvolumes and /mnt/ecs_mnt/k8s_nas/temp */
  const MNT_ROOT_PATH := PathOf(MNT_ROOT)
  const TEMP_MNT_PATH := PathOf(TEMP_ROOT)

  function CreateMountPoint(pvName: string): (p: string)
    ensures Rooted(p)
  {
    Join(MNT_ROOT_PATH, pvName)
  }

  function DeleteMountPoint(volumeID: string): (p: string)
    ensures Rooted(p)
  {
    Join(MNT_ROOT_PATH, volumeID + "-delete")
  }

  function TempMountPoint(volumeID: string): (p: string)
    ensures Rooted(p)
  {
    Join(TEMP_MNT_PATH, volumeID)
  }

  lemma RootsPlain()
    ensures AllPlain(MNT_ROOT) && AllPlain(TEMP_ROOT)
  {
  }

  lemma RootPaths()
    ensures Components(MNT_ROOT_PATH) == MNT_ROOT && Components(TEMP_MNT_PATH) == TEMP_ROOT
  {
    hide Components, PathOf;
    RootsPlain();
    PathOfComponents(MNT_ROOT);
    PathOfComponents(TEMP_ROOT);
  }

  /** A join with a name that never climbs stays below the directory. */
  lemma JoinStays(dir: string, name: string)
    requires Rooted(dir) && NeverClimbs(Split(name))
    ensures Components(Join(dir, name)) == Components(dir) + Follow([], Split(name))
  {
    JoinDenotes(dir, name);
    FollowStays(Components(dir), Split(name));
  }

  /** No mount point of a create is one of the fallback's, for names that never climb. */
  lemma MountPointsApart(name: string, name': string)
    requires NeverClimbs(Split(name)) && NeverClimbs(Split(name'))
    ensures CreateMountPoint(name) != TempMountPoint(name')
  {
    hide Components, Split, Follow, Join, PathOf, NeverClimbs;
    RootPaths();
    JoinStays(MNT_ROOT_PATH, name);
    JoinStays(TEMP_MNT_PATH, name');
    assert (MNT_ROOT + Follow([], Split(name)))[0] != (TEMP_ROOT + Follow([], Split(name')))[0];
  }

  lemma TempComponents(name: string)
    requires Plain(name)
    ensures Components(TempMountPoint(name)) == TEMP_ROOT + [name]
  {
    hide Components, Join, PathOf;
    RootPaths();
    JoinPlain(TEMP_MNT_PATH, name);
  }

  lemma JoinName(dir: Dir, name: string)
    requires AllPlain(dir) && dir != [] && Plain(name)
    ensures Join(PathOf(dir), name) == PathOf(dir) + "/" + name
  {
    hide Components, Split, Follow, Join;
    PathOfComponents(dir);
    JoinPlain(PathOf(dir), name);
    Strings.JoinSnoc(dir, name, '/');
  }

  /** The mount points by name. */
  lemma MountPointNames(name: string)
    requires Plain(name)
    ensures CreateMountPoint(name) == "/csi-persistentvolumes/" + name
    ensures DeleteMountPoint(name) == "/csi-persistentvolumes/" + name + "-delete"
    ensures TempMountPoint(name) == "/mnt/ecs_mnt/k8s_nas/temp/" + name
  {
    hide Components, Split, Follow, Join, PathOf;
    RootsPlain();
    RootNames();
    JoinName(MNT_ROOT, name);
    assert Plain(name + "-delete") by {
      assert (name + "-delete")[|name|] == '-' && |name + "-delete"| > 2;
    }
    JoinName(MNT_ROOT, name + "-delete");
    JoinName(TEMP_ROOT, name);
  }

  lemma RootNames()
    ensures MNT_ROOT_PATH == "/csi-persistentvolumes" && TEMP_MNT_PATH == "/mnt/ecs_mnt/k8s_nas/temp"
  {
    assert MNT_ROOT[1..] == [] && TEMP_ROOT[1..][1..][1..] == ["temp"];
    assert TEMP_ROOT[1..] == ["ecs_mnt", "k8s_nas", "temp"] && TEMP_ROOT[1..][1..] == ["k8s_nas", "temp"];
  }

  // ----- Paths that climb -----

  /** The directory createNasSubDir makes under its temporary mount of the file system root is the
      directory that doNfsMount then asks to mount. */
  lemma FallbackMakesMountedDirectory(fsId: string, subPath: string, volumeID: string)
    requires NeverClimbs(Split(subPath))
    ensures var tmp, dest := TempMountPoint(volumeID), Join(TempMountPoint(volumeID), subPath);
      && Under(Components(tmp), Components(dest))
      && Components("/" + fsId) + Components(dest)[|Components(tmp)|..] == Components(MountedPath(fsId, subPath))
  {
    var tmp := TempMountPoint(volumeID);
    JoinDenotes(tmp, subPath);
    JoinDenotes("/" + fsId, subPath);
    FollowStays(Components(tmp), Split(subPath));
    FollowStays(Components("/" + fsId), Split(subPath));
  }

  /** The directory made under the temporary mount and the directory then asked for are the same. */
  ghost predicate FallbackWorks(fsId: string, subPath: string, volumeID: string) {
    var tmp, dest := Components(TempMountPoint(volumeID)), Components(Join(TempMountPoint(volumeID), subPath));
    Under(tmp, dest) && Components("/" + fsId) + dest[|tmp|..] == Components(MountedPath(fsId, subPath))
  }

  /** The fallback works if and only if the sub path never climbs above the file system root, or climbs
      one level and comes back through a file system that is named like the volume. */
  lemma FallbackWorksIff(fsId: string, subPath: string, volumeID: string)
    requires Plain(volumeID) && SlashFree(fsId)
    ensures var parts := Split(subPath);
      FallbackWorks(fsId, subPath, volumeID) <==>
        NeverClimbs(parts) || (fsId == volumeID && Ups(parts) == 1 && Tail(parts) != [] && Tail(parts)[0] == volumeID)
  {
    hide Components, Split, Follow, Join, TempMountPoint, NeverClimbs, Climb, MountedPath;
    var parts, tmp := Split(subPath), TempMountPoint(volumeID);
    NeverClimbsIff(parts);
    if Ups(parts) == 0 {
      FallbackMakesMountedDirectory(fsId, subPath, volumeID);
    } else {
      var at, root := TEMP_ROOT + [volumeID], Components("/" + fsId);
      TempComponents(volumeID);
      JoinDenotes(tmp, subPath);
      MountedDenotes(fsId, subPath);
      FsIdDenotes(fsId);
      FollowOne([], fsId);
      FollowClimbs(at, parts);
      FollowClimbs(root, parts);
      assert Follow(root, parts) == Tail(parts);
      ClimbedBack(at, root, Ups(parts), Tail(parts));
    }
  }

  lemma MountedDenotes(fsId: string, subPath: string)
    ensures Components(MountedPath(fsId, subPath)) == Follow(Components("/" + fsId), Split(subPath))
  {
    JoinDenotes("/" + fsId, subPath);
  }

  /** A clean volume path, such as CreateVolume records, never makes a delete climb. */
  lemma RecordedPathStays(dir: Dir, name: string)
    requires AllPlain(dir) && Plain(name)
    ensures var t := DeleteTargetOf(PathOf(dir + [name]));
      && Recovers(t, PathOf(dir), name)
      && NeverClimbs(Split(t.subPath))
  {
    hide Split, Components, Base, TrimSlash, LastSlash, MountedPath, NeverClimbs;
    DeleteRecovers(dir, name);
    LastComponent(dir, name);
    assert PathOf([]) == "/";
    PathOfComponents(dir);
    Strings.SplitFree("", '/');
    assert |PathOf(dir + [name])| >= 2;
    var t := DeleteTargetOf(PathOf(dir + [name]));
    assert t.subPath == NfsPathDetail(PathOf(dir)).1;
    DetailStays(dir);
  }

  lemma DetailStays(dir: Dir)
    requires AllPlain(dir)
    ensures NeverClimbs(Split(NfsPathDetail(PathOf(dir)).1))
  {
    hide Components, NeverClimbs;
    Strings.SplitFree("", '/');
    NoDotsNeverClimb([""]);
    if dir == [] {
      assert PathOf([]) == "/" && "/" == "" + ['/'] + "";
      SplitTwo("", "");
    } else {
      PathOfComponents(dir);
      assert ([""] + dir)[2..] == dir[1..];
      if |dir| > 1 {
        PathOfComponents(dir[1..]);
        NoDotsNeverClimb([""] + dir[1..]);
      }
    }
  }

  // ----- Storage class parameters (utils.go) -----

  datatype NasVolumeArgs = NasVolumeArgs(server: string, fsId: string, subPath: string, archiveOnDelete: string)

  datatype Args = BadArgs | Args(args: NasVolumeArgs)

  ghost function ParamOr(params: map<string, string>, key: string, default: string): string {
    if key in params then params[key] else default
  }

  /** A leading slash is added and one trailing slash removed. */
  ghost function NormalSubPath(raw: string): string {
    TrimSlash(if raw != "" && raw[0] != '/' then "/" + raw else raw)
  }

  /** volumeAs must be absent or subpath, the server present and the file system id free of slashes. */
  ghost predicate Acceptable(params: map<string, string>) {
    && ParamOr(params, "volumeAs", "subpath") == "subpath"
    && ParamOr(params, "server", "") != ""
    && SlashFree(ParamOr(params, "fsId", ""))
  }

  /** The directory the parameters name. */
  ghost function ParentPath(params: map<string, string>): (p: string)
    ensures Rooted(p)
  {
    MountedPath(ParamOr(params, "fsId", ""), NormalSubPath(ParamOr(params, "subPath", "")))
  }

  /** getNasVolumeArgs */
  method GetNasVolumeArgs(params: map<string, string>) returns (r: Args)
    ensures r.Args? <==> Acceptable(params)
    ensures r.Args? ==> "server" in params && r.args == NasVolumeArgs(params["server"], ParamOr(params, "fsId", ""),
                                                                    NormalSubPath(ParamOr(params, "subPath", "")),
                                                                    ParamOr(params, "archiveOnDelete", "true"))
  {
    if "volumeAs" in params && params["volumeAs"] != "subpath" {
      return BadArgs;
    }
    var archiveOnDelete := if "archiveOnDelete" in params then params["archiveOnDelete"] else "true";
    var server := if "server" in params then params["server"] else "";
    if |server| == 0 {
      return BadArgs;
    }
    var fsId := if "fsId" in params then params["fsId"] else "";
    if '/' in fsId {
      return BadArgs;
    }
    var subPath := if "subPath" in params then params["subPath"] else "";
    if subPath != "" && subPath[0] != '/' {
      subPath := "/" + subPath;
    }
    if subPath != "" && subPath[|subPath| - 1] == '/' {
      subPath := subPath[..|subPath| - 1];
    }
    return Args(NasVolumeArgs(server, fsId, subPath, archiveOnDelete));
  }

  /** Normalizing a sub path never changes the directory it leads to. */
  lemma NormalSubPathDenotes(fsId: string, raw: string)
    ensures MountedPath(fsId, NormalSubPath(raw)) == MountedPath(fsId, raw)
  {
    hide Components, Split, Follow, Join, PathOf;
    var slashed := if raw != "" && raw[0] != '/' then "/" + raw else raw;
    var at := Components("/" + fsId);
    JoinDenotes("/" + fsId, raw);
    JoinDenotes("/" + fsId, NormalSubPath(raw));
    if raw != "" && raw[0] != '/' {
      assert slashed == "" + ['/'] + raw;
      SlashInFront(at, raw);
    }
    if slashed != "" && slashed[|slashed| - 1] == '/' {
      assert slashed == TrimSlash(slashed) + ['/'] + "";
      SlashAtEnd(at, TrimSlash(slashed));
    }
  }

  // ----- Deleting -----

  datatype Parsed = NotABool | Bool(value: bool)

  /** strconv.ParseBool */
  function ParseBool(s: string): Parsed {
    if s in {"1", "t", "T", "TRUE", "true", "True"} then Bool(true)
    else if s in {"0", "f", "F", "FALSE", "false", "False"} then Bool(false)
    else NotABool
  }

  /** The volume attribute archiveOnDelete. */
  datatype Attribute = Absent | Present(value: string)

  /** Absent means archive. */
  ghost predicate Discards(archive: Attribute) {
    archive.Present? && archive.value in {"0", "f", "F", "FALSE", "false", "False"}
  }

  ghost predicate Unreadable(archive: Attribute) {
    && archive.Present? && !Discards(archive)
    && archive.value !in {"1", "t", "T", "TRUE", "true", "True"}
  }

  /** "archived-" + name + the time, e.g. ".2023-07-21-08:32:05". */
  function ArchiveName(name: string, stamp: string): string {
    "archived-" + name + stamp
  }

  /** The export after an OK delete of `parent`/`name`. */
  ghost function AfterDelete(ex: Export, parent: Dir, name: string, archive: Attribute, stamp: string): Export {
    if parent + [name] !in ex then ex
    else if Discards(archive) then Without(ex, parent + [name])
    else Moved(ex, parent + [name], parent + [ArchiveName(name, stamp)])
  }

  lemma DeleteKeeps(ex: Export, parent: Dir, name: string, archive: Attribute, stamp: string)
    requires ExportOk(ex) && parent + [ArchiveName(name, stamp)] !in ex
    ensures var vol, arch := parent + [name], parent + [ArchiveName(name, stamp)];
      var ex' := AfterDelete(ex, parent, name, archive, stamp);
      && ExportOk(ex')
      && Subtree(ex', vol) == map[]
      && (forall p: Dir | !Under(vol, p) && !Under(arch, p) :: (p in ex' <==> p in ex) && (p in ex ==> ex'[p] == ex[p]))
      && (!Discards(archive) ==> |ex'| == |ex| && Subtree(ex', arch) == Subtree(ex, vol))
      && (Discards(archive) ==> Subtree(ex', arch) == map[])
      && vol !in ex'
  {
    var vol, arch := parent + [name], parent + [ArchiveName(name, stamp)];
    var ex' := AfterDelete(ex, parent, name, archive, stamp);
    assert |ArchiveName(name, stamp)| > |name|;
    FreeIsEmpty(ex, arch);
    if vol !in ex {
      FreeIsEmpty(ex, vol);
    } else if Discards(archive) {
      RemoveTakesOnlyVolume(ex, parent, name);
    } else {
      ArchiveConserves(ex, parent, name, ArchiveName(name, stamp));
    }
    BelowIff(ex', vol, []);
    assert vol + [] == vol;
    assert vol in ex' ==> [] in Subtree(ex', vol);
  }

  /** An OK delete conserves data.  Whatever the volume held is lost only when archiveOnDelete parses
      as false, and otherwise reappears, the same tree, under the archived name; nothing else in the
      export changes; and deleting again changes nothing. */
  lemma DeleteConserves(ex: Export, parent: Dir, name: string, archive: Attribute, stamp: string, stamp': string)
    requires ExportOk(ex) && parent + [ArchiveName(name, stamp)] !in ex
    ensures var vol, arch := parent + [name], parent + [ArchiveName(name, stamp)];
      var ex' := AfterDelete(ex, parent, name, archive, stamp);
      && ExportOk(ex')
      && Subtree(ex', vol) == map[]
      && (forall p: Dir | !Under(vol, p) && !Under(arch, p) :: (p in ex' <==> p in ex) && (p in ex ==> ex'[p] == ex[p]))
      && var lost := archive != Absent && archive.value in {"0", "f", "F", "FALSE", "false", "False"};
      && (!lost ==> |ex'| == |ex| && Subtree(ex', arch) == Subtree(ex, vol))
      && (lost ==> Subtree(ex', arch) == map[])
      && AfterDelete(ex', parent, name, archive, stamp') == ex'
  {
    hide Subtree, ExportOk, Without, Moved;
    DeleteKeeps(ex, parent, name, archive, stamp);
  }

  /** The tree at `vol` is now at `arch`, entry by entry, and nothing is left behind. */
  ghost predicate Archived(ex: Export, ex': Export, vol: Dir, arch: Dir) {
    forall r: Dir ::
      && vol + r !in ex'
      && (arch + r in ex' <==> vol + r in ex)
      && (vol + r in ex ==> ex'[arch + r] == ex[vol + r])
  }

  /** Nothing is left at `vol` and nothing was put at `arch`. */
  ghost predicate Removed(ex': Export, vol: Dir, arch: Dir) {
    forall r: Dir :: vol + r !in ex' && arch + r !in ex'
  }

  /** What archiveOnDelete asks for: without it, or with a true spelling, the tree is kept under the archived
      name, with a false spelling it is removed, and with anything else nothing happens to it. */
  ghost predicate AsAsked(ex: Export, ex': Export, parent: Dir, name: string, archive: Attribute, stamp: string, ok: bool) {
    var vol, arch := parent + [name], parent + ["archived-" + name + stamp];
    && (ok && (archive == Absent || archive.value in {"1", "t", "T", "TRUE", "true", "True"}) ==> Archived(ex, ex', vol, arch))
    && (ok && archive != Absent && archive.value in {"0", "f", "F", "FALSE", "false", "False"} ==> Removed(ex', vol, arch))
    && (archive != Absent && vol in ex
        && archive.value !in {"1", "t", "T", "TRUE", "true", "True", "0", "f", "F", "FALSE", "false", "False"} ==>
          !ok && ex' == ex)
  }

  lemma SubtreeEntry(ex: Export, d: Dir, r: Dir)
    ensures r in Subtree(ex, d) <==> d + r in ex
    ensures d + r in ex ==> Subtree(ex, d)[r] == ex[d + r]
  {
    BelowIff(ex, d, r);
  }

  lemma EntriesMoved(ex: Export, ex': Export, vol: Dir, arch: Dir)
    requires Subtree(ex', vol) == map[] && Subtree(ex', arch) == Subtree(ex, vol)
    ensures Archived(ex, ex', vol, arch)
  {
    hide Subtree;
    forall r: Dir
      ensures vol + r !in ex' && (arch + r in ex' <==> vol + r in ex) && (vol + r in ex ==> ex'[arch + r] == ex[vol + r])
    {
      SubtreeEntry(ex', vol, r);
      SubtreeEntry(ex', arch, r);
      SubtreeEntry(ex, vol, r);
    }
  }

  lemma EntriesGone(ex': Export, vol: Dir, arch: Dir)
    requires Subtree(ex', vol) == map[] == Subtree(ex', arch)
    ensures Removed(ex', vol, arch)
  {
    hide Subtree;
    forall r: Dir ensures vol + r !in ex' && arch + r !in ex' {
      SubtreeEntry(ex', vol, r);
      SubtreeEntry(ex', arch, r);
    }
  }

  /** A delete with the effect of AfterDelete does what it was asked for. */
  lemma DeletesAsAsked(ex: Export, ex': Export, parent: Dir, name: string, archive: Attribute, stamp: string, ok: bool)
    requires ExportOk(ex) && parent + [ArchiveName(name, stamp)] !in ex
    requires ok ==> ex' == AfterDelete(ex, parent, name, archive, stamp)
    requires parent + [name] in ex && Unreadable(archive) ==> !ok && ex' == ex
    ensures AsAsked(ex, ex', parent, name, archive, stamp, ok)
  {
    hide AfterDelete, ExportOk, Subtree, Archived, Removed;
    if ok {
      DeleteKeeps(ex, parent, name, archive, stamp);
      if Discards(archive) {
        EntriesGone(ex', parent + [name], parent + [ArchiveName(name, stamp)]);
      } else {
        EntriesMoved(ex, ex', parent + [name], parent + [ArchiveName(name, stamp)]);
      }
    }
  }

  lemma FreeIsEmpty(ex: Export, d: Dir)
    requires ExportOk(ex) && d !in ex
    ensures Subtree(ex, d) == map[]
  {
    forall r: Dir ensures r !in Below(ex, d) {
      BelowIff(ex, d, r);
      if d + r in ex {
        assert Under(d, d + r);
        NothingBelow(ex, d, d + r);
      }
    }
  }
}
