/** NodePublishVolume and NodeUnpublishVolume of pkg/tos/nodeserver.go over the kernel mount table, with
    the deferred cleanup and the s3fs launcher, whose mounts may arrive while the driver polls. */
module TosNode {
  import Strings
  import opened Paths
  import opened TosOptions

  datatype Code = OK | InvalidArgument | Internal | Unknown | Panicked

  /** An s3fs mount of `path` in `bucket`; `compat` stands for the notsup_compat_dir option. */
  datatype Layer = Layer(url: string, bucket: string, path: string, compat: bool)

  type Table = map<string, seq<Layer>>

  function StackAt(t: Table, path: string): seq<Layer> {
    if path in t then t[path] else []
  }

  // ----- The temporary path of a publish -----

  const TEMP_DIR: seq<string> := ["tmp", "tos_mnt"]

  /** filepath.Join("/tmp/tos_mnt/", podUID+"_"+volID) */
  function TempPath(podUID: string, volID: string): (p: string)
    ensures Rooted(p)
  {
    Join(PathOf(TEMP_DIR) + "/", podUID + "_" + volID)
  }

  lemma TempPathIs(podUID: string, volID: string)
    requires SlashFree(podUID) && SlashFree(volID)
    ensures Components(TempPath(podUID, volID)) == TEMP_DIR + [podUID + "_" + volID]
    ensures TempPath(podUID, volID) == PathOf(TEMP_DIR + [podUID + "_" + volID])
  {
    hide Components, Split, Follow, Join, PathOf;
    var name := podUID + "_" + volID;
    assert Plain(name) by {
      assert name[|podUID|] == '_';
      assert name != "." && name != "..";
    }
    assert AllPlain(TEMP_DIR);
    PathOfComponents(TEMP_DIR);
    var dir := PathOf(TEMP_DIR) + "/";
    assert dir == PathOf(TEMP_DIR) + ['/'] + "";
    SlashAtEnd([], PathOf(TEMP_DIR));
    ComponentsOf(dir);
    ComponentsOf(PathOf(TEMP_DIR));
    JoinPlain(dir, name);
  }

  /** The temporary path by name. */
  lemma TempPathName(podUID: string, volID: string)
    requires SlashFree(podUID) && SlashFree(volID)
    ensures TempPath(podUID, volID) == "/tmp/tos_mnt/" + podUID + "_" + volID
  {
    hide TempPath, Components, PathOf;
    TempPathIs(podUID, volID);
    Strings.JoinSnoc(TEMP_DIR, podUID + "_" + volID, '/');
    TempDirName();
    PathIs(TEMP_DIR + [podUID + "_" + volID]);
    assert "/" + ("tmp/tos_mnt" + "/" + (podUID + "_" + volID)) == "/tmp/tos_mnt/" + podUID + "_" + volID;
  }

  lemma TempDirName()
    ensures Strings.Join(TEMP_DIR, '/') == "tmp/tos_mnt"
  {
    assert TEMP_DIR[1..] == ["tos_mnt"];
  }

  lemma PathIs(dir: seq<string>)
    ensures PathOf(dir) == "/" + Strings.Join(dir, '/')
  {
  }

  lemma ComponentsOf(p: string)
    ensures Components(p) == Follow([], Split(p))
  {
  }

  /** `p'` is `p`, an underscore and more. */
  predicate Extends(p: string, p': string) {
    p + "_" <= p'
  }

  lemma ShorterExtends(p: string, v: string, p': string, v': string)
    requires p + "_" + v == p' + "_" + v' && |p| < |p'|
    ensures Extends(p, p')
  {
    var s := p' + "_" + v';
    assert s[..|p| + 1] == p'[..|p| + 1];
    assert (p + "_" + v)[..|p| + 1] == p + "_";
  }

  lemma CutAtUnderscore(p: string, v: string, p': string, v': string)
    requires p + "_" + v == p' + "_" + v' && !Extends(p, p') && !Extends(p', p)
    ensures p == p' && v == v'
  {
    if |p| < |p'| {
      ShorterExtends(p, v, p', v');
    } else if |p'| < |p| {
      ShorterExtends(p', v', p, v);
    } else {
      var s := p + "_" + v;
      assert p == s[..|p|] && p' == s[..|p|] && v == s[|p| + 1..] && v' == s[|p| + 1..];
    }
  }

  lemma SamePathSameName(podUID: string, volID: string, podUID': string, volID': string)
    requires SlashFree(podUID) && SlashFree(volID) && SlashFree(podUID') && SlashFree(volID')
    ensures TempPath(podUID, volID) == TempPath(podUID', volID') <==> podUID + "_" + volID == podUID' + "_" + volID'
  {
    hide TempPath, Components;
    TempPathIs(podUID, volID);
    TempPathIs(podUID', volID');
    if TempPath(podUID, volID) == TempPath(podUID', volID') {
      var a, b := TEMP_DIR + [podUID + "_" + volID], TEMP_DIR + [podUID' + "_" + volID'];
      assert a[|TEMP_DIR|] == b[|TEMP_DIR|];
    } else if podUID + "_" + volID == podUID' + "_" + volID' {
      SameTempPath(podUID, volID, podUID', volID');
    }
  }

  lemma SameTempPath(podUID: string, volID: string, podUID': string, volID': string)
    requires podUID + "_" + volID == podUID' + "_" + volID'
    ensures TempPath(podUID, volID) == TempPath(podUID', volID')
  {
  }

  /** Every pair of one of these pods and a volume has a temporary path of its own. */
  ghost predicate PathsApart(pods: set<string>) {
    forall p, v, p', v' | p in pods && p' in pods && SlashFree(v) && SlashFree(v') && TempPath(p, v) == TempPath(p', v') ::
      p == p' && v == v'
  }

  /** That holds if and only if no pod id is another one followed by an underscore. */
  lemma TempPathsApart(pods: set<string>)
    requires forall p | p in pods :: SlashFree(p)
    ensures PathsApart(pods) <==> forall p, p' | p in pods && p' in pods :: !Extends(p, p')
  {
    hide TempPath, Extends;
    if forall p, p' | p in pods && p' in pods :: !Extends(p, p') {
      forall p, v, p', v' | p in pods && p' in pods && SlashFree(v) && SlashFree(v') && TempPath(p, v) == TempPath(p', v')
        ensures p == p' && v == v'
      {
        SamePathSameName(p, v, p', v');
        CutAtUnderscore(p, v, p', v');
      }
    } else {
      var p, p' :| p in pods && p' in pods && Extends(p, p');
      var v := Clash(p, p');
      assert TempPath(p, v) == TempPath(p', "") && SlashFree("");
    }
  }

  /** A pod id that extends another shares a path with it. */
  lemma Clash(p: string, p': string) returns (v: string)
    requires Extends(p, p') && SlashFree(p')
    ensures p != p' && SlashFree(v) && TempPath(p, v) == TempPath(p', "")
  {
    var rest := p'[|p| + 1..];
    v := rest + "_";
    assert p' == p + "_" + rest;
    assert p + "_" + v == p' + "_" + "";
    SameTempPath(p, v, p', "");
  }

  lemma ExtendsUnderscore(p: string, p': string)
    requires Extends(p, p')
    ensures '_' in p'
  {
    assert p'[|p|] == '_';
  }

  /** In particular for pod ids without an underscore. */
  lemma UnderscoreFreeApart(pods: set<string>)
    requires forall p | p in pods :: SlashFree(p) && '_' !in p
    ensures PathsApart(pods)
  {
    hide PathsApart, Extends;
    forall p, p' | p in pods && p' in pods ensures !Extends(p, p') {
      if Extends(p, p') {
        ExtendsUnderscore(p, p');
      }
    }
    TempPathsApart(pods);
  }

  // ----- The host -----

  /** Only these two paths may differ. */
  ghost predicate SameBut(t: Table, t': Table, a: string, b: string) {
    forall p | p != a && p != b :: StackAt(t', p) == StackAt(t, p)
  }

  ghost predicate AtMostOne(t: Table) {
    forall p :: |StackAt(t, p)| <= 1
  }

  lemma Put(t: Table, p: string, stack: seq<Layer>)
    requires AtMostOne(t) && |stack| <= 1
    ensures AtMostOne(t[p := stack]) && SameBut(t, t[p := stack], p, p) && StackAt(t[p := stack], p) == stack
  {
    var t' := t[p := stack];
    forall q ensures StackAt(t', q) == if q == p then stack else StackAt(t, q) {
    }
  }

  lemma AtMost(t: Table, p: string)
    requires AtMostOne(t)
    ensures |StackAt(t, p)| <= 1
  {
  }

  /** A further change of one of the two paths. */
  lemma SameOn(t: Table, t1: Table, t2: Table, a: string, b: string, p: string)
    requires SameBut(t, t1, a, b) && SameBut(t1, t2, p, p) && p in {a, b}
    ensures SameBut(t, t2, a, b)
    ensures forall q | q != p :: StackAt(t2, q) == StackAt(t1, q)
  {
    forall q | q != a && q != b ensures StackAt(t2, q) == StackAt(t, q) {
      assert StackAt(t2, q) == StackAt(t1, q);
    }
  }

  lemma SameTwice(t: Table, t1: Table, t2: Table, a: string, b: string)
    requires SameBut(t, t1, a, b) && SameBut(t1, t2, a, b)
    ensures SameBut(t, t2, a, b)
  {
    forall q | q != a && q != b ensures StackAt(t2, q) == StackAt(t, q) {
      assert StackAt(t1, q) == StackAt(t, q);
    }
  }

  lemma Same(t: Table, a: string, b: string)
    ensures SameBut(t, t, a, b)
  {
  }

  // ----- The steps of a publish that can fail -----

  /** Which steps on the temporary path fail, and whether the launched mount arrives. */
  datatype TmpSteps = TmpSteps(launch: bool, arrives: bool, poll: bool, mkdir: bool, unmount: bool, remove: bool)

  /** The same for the target. */
  datatype TargetSteps = TargetSteps(make: bool, check: bool, launch: bool, arrives: bool, poll: bool)

  /** And for the two unmounts of the cleanup. */
  datatype Steps = Steps(tmp: TmpSteps, target: TargetSteps, cleanTmp: bool, cleanTarget: bool)

  const TMP_WORKS := TmpSteps(false, true, false, false, false, false)
  const TARGET_WORKS := TargetSteps(false, false, false, true, false)

  function Popped(stack: seq<Layer>): seq<Layer> {
    if stack == [] then [] else stack[..|stack| - 1]
  }

  function Launched(stack: seq<Layer>, layer: Layer, arrives: bool): seq<Layer> {
    if stack == [] && arrives then [layer] else stack
  }

  /** The temporary path stays mounted. */
  predicate Stays(tmp: seq<Layer>, s: TmpSteps) {
    (tmp == [] && s.launch) || s.poll || s.mkdir || s.unmount
  }

  predicate TmpFails(tmp: seq<Layer>, s: TmpSteps) {
    Stays(tmp, s) || s.remove
  }

  predicate TargetFails(target: seq<Layer>, s: TargetSteps) {
    s.make || s.check || (target == [] && (s.launch || s.poll))
  }

  predicate Fails(tmp: seq<Layer>, target: seq<Layer>, s: Steps) {
    TmpFails(tmp, s.tmp) || TargetFails(target, s.target)
  }

  /** A step up to the target's mount check fails. */
  predicate EarlyFails(tmp: seq<Layer>, s: Steps) {
    TmpFails(tmp, s.tmp) || s.target.make || s.target.check
  }

  /** What the two halves leave on their paths, before the cleanup; `tmp` and `target` are the stacks before. */
  function TmpLeft(tmp: seq<Layer>, layer: Layer, s: TmpSteps): seq<Layer> {
    var mounted := Launched(tmp, layer, s.arrives);
    if Stays(tmp, s) then mounted else Popped(mounted)
  }

  function TargetLeft(target: seq<Layer>, layer: Layer, s: TargetSteps): seq<Layer> {
    if s.make || s.check then target else Launched(target, layer, s.arrives)
  }

  /** What the temporary path carries afterwards. */
  function TmpAfter(tmp: seq<Layer>, target: seq<Layer>, layer: Layer, s: Steps): seq<Layer> {
    var left := TmpLeft(tmp, layer, s.tmp);
    if Fails(tmp, target, s) && !s.cleanTmp then Popped(left) else left
  }

  /** What the target carries afterwards. */
  function TargetAfter(tmp: seq<Layer>, target: seq<Layer>, layer: Layer, s: Steps): seq<Layer> {
    var left := if TmpFails(tmp, s.tmp) then target else TargetLeft(target, layer, s.target);
    if Fails(tmp, target, s) && !s.cleanTarget then Popped(left) else left
  }

  /** The effect of the guarded part of a publish. */
  ghost predicate PublishStep(t: Table, t': Table, tmp: string, target: string, options: Options, s: Steps, ok: bool) {
    var first, second := Layer(options.url, options.bucket, "", true), Layer(options.url, options.bucket, options.path, false);
    && SameBut(t, t', tmp, target)
    && (ok <==> !Fails(StackAt(t, tmp), StackAt(t, target), s))
    && StackAt(t', tmp) == TmpAfter(StackAt(t, tmp), StackAt(t, target), first, s)
    && StackAt(t', target) == TargetAfter(StackAt(t, tmp), StackAt(t, target), second, s)
    && (ok ==> Launched(StackAt(t, tmp), first, s.tmp.arrives) != [] && Launched(StackAt(t, target), second, s.target.arrives) != [])
  }

  /** A target that was mounted before keeps its mount if and only if no step up to its mount check fails,
      or the unmount of the cleanup does. */
  lemma TargetKeptIff(t: Table, t': Table, tmp: string, target: string, options: Options, s: Steps, ok: bool)
    requires StackAt(t, target) != [] && PublishStep(t, t', tmp, target, options, s, ok)
    ensures StackAt(t', target) == StackAt(t, target) <==> !EarlyFails(StackAt(t, tmp), s) || s.cleanTarget
    ensures ok <==> !EarlyFails(StackAt(t, tmp), s)
  {
    assert |Popped(StackAt(t, target))| < |StackAt(t, target)|;
  }

  /** An OK publish on a free target mounts exactly the sub path of the bucket there. */
  lemma FreeTarget(t: Table, t': Table, tmp: string, target: string, options: Options, s: Steps)
    requires StackAt(t, target) == [] && PublishStep(t, t', tmp, target, options, s, true)
    ensures StackAt(t', target) == [Layer(options.url, options.bucket, options.path, false)]
  {
  }

  /** So a publish repeated on a mounted target, with the launcher refusing the temporary mount, fails and
      leaves the target unmounted. */
  lemma RefusedRepublish(tmp: string, target: string, options: Options)
    requires tmp != target
    ensures var layer := Layer(options.url, options.bucket, options.path, false);
      var refused := Steps(TMP_WORKS.(launch := true, arrives := false), TARGET_WORKS, false, false);
      exists t' :: PublishStep(map[target := [layer]], t', tmp, target, options, refused, false) && StackAt(t', target) == []
  {
    var layer := Layer(options.url, options.bucket, options.path, false);
    var refused := Steps(TMP_WORKS.(launch := true, arrives := false), TARGET_WORKS, false, false);
    assert PublishStep(map[target := [layer]], map[], tmp, target, options, refused, false);
  }

  // ----- The sub path in the bucket -----

  /** What making `subPath` under a mount of the bucket's root adds to the bucket; a path that leads out of
      the mount adds nothing. */
  function MadeIn(bucket: string, mountPoint: string, subPath: string): set<(string, seq<string>)>
    requires Rooted(mountPoint)
  {
    var at, dest := Components(mountPoint), Components(Join(mountPoint, subPath));
    if at <= dest then {(bucket, dest[|at|..])} else {}
  }

  /** The sub path itself is made if and only if it never climbs. */
  lemma SubPathMadeIff(bucket: string, mountPoint: string, subPath: string)
    requires Rooted(mountPoint) && |Components(mountPoint)| > 1
    ensures (bucket, Follow([], Split(subPath))) in MadeIn(bucket, mountPoint, subPath) <==> NeverClimbs(Split(subPath))
  {
    hide Components, Split, Follow, Join, NeverClimbs, Climb;
    var at, parts := Components(mountPoint), Split(subPath);
    JoinDenotes(mountPoint, subPath);
    NeverClimbsIff(parts);
    FollowClimbs(at, parts);
    FollowClimbs([], parts);
    assert Follow([], parts) == Tail(parts);
    if Ups(parts) == 0 {
      assert at[..|at|] == at;
      assert Follow(at, parts) == at + Tail(parts);
    } else {
      ClimbedBack(at, [], Ups(parts), Tail(parts));
      var dest := Follow(at, parts);
      assert at <= dest ==> [] + dest[|at|..] == dest[|at|..];
    }
  }

  /** The bucket that a publish makes the sub path in: that of a left-over mount, or its own. */
  function BucketUsed(tmp: seq<Layer>, options: Options): string {
    if tmp == [] then options.bucket else tmp[|tmp| - 1].bucket
  }

  class TosHost {
    const faultless: bool    // no system call fails, and the launcher mounts within the poll
    const unmountsWork: bool // what is mounted can be unmounted

    var mounts: Table
    var paths: set<string>                  // the mount points that exist
    var coming: map<string, Layer>          // what the launcher accepted and has not mounted yet
    var dirs: set<(string, seq<string>)>    // directories made, by bucket

    /** Between calls nothing is on its way: a launcher reply mounts within the poll or never. */
    ghost predicate Valid()
      reads this
    {
      AtMostOne(mounts) && coming == map[]
    }

    function Stack(path: string): seq<Layer>
      reads this
    {
      StackAt(mounts, path)
    }

    // ----- System calls and the launcher -----

    method Unmount(path: string) returns (err: bool)
      requires AtMostOne(mounts)
      modifies this`mounts
      ensures AtMostOne(mounts) && SameBut(old(mounts), mounts, path, path)
      ensures err ==> mounts == old(mounts)
      ensures !err ==> old(Stack(path)) != [] && Stack(path) == [] == Popped(old(Stack(path)))
      ensures (faultless || unmountsWork) && old(Stack(path)) != [] ==> !err
    {
      var fails: bool := *;
      if (fails && !faultless && !unmountsWork) || Stack(path) == [] {
        return true;
      }
      AtMost(mounts, path);
      Put(mounts, path, []);
      mounts := mounts[path := Stack(path)[..|Stack(path)| - 1]];
      return false;
    }

    method MkdirAll(path: string) returns (err: bool)
      modifies this`paths
      ensures paths == if err then old(paths) else old(paths) + {path}
      ensures faultless ==> !err
    {
      var fails: bool := *;
      fails := fails && !faultless;
      if !fails {
        paths := paths + {path};
      }
      return fails;
    }

    method Remove(path: string) returns (err: bool)
      modifies this`paths
      ensures paths == if err then old(paths) else old(paths) - {path}
      ensures faultless ==> !err
    {
      var fails: bool := *;
      fails := fails && !faultless;
      if !fails {
        paths := paths - {path};
      }
      return fails;
    }

    /** mount: the launcher mounts at once, or later, or, with an error, possibly not at all. */
    method Launch(options: Options, compat: bool, path: string) returns (err: bool)
      requires AtMostOne(mounts) && coming == map[] && Stack(path) == []
      modifies this`mounts, this`coming
      ensures AtMostOne(mounts) && SameBut(old(mounts), mounts, path, path)
      ensures var layer := Layer(options.url, options.bucket, options.path, compat);
        || (Stack(path) == [layer] && coming == map[])
        || (Stack(path) == [] && coming == (if err then map[] else map[path := layer]))
      ensures faultless ==> !err
    {
      var layer := Layer(options.url, options.bucket, options.path, compat);
      err := *;
      err := err && !faultless;
      var now: bool := *;
      Put(mounts, path, [layer]);
      Same(mounts, path, path);
      if now {
        mounts := mounts[path := [layer]];
      } else if !err {
        coming := map[path := layer];
      }
    }

    /** checkTosMounted: twenty looks at the mount point, 200ms apart. */
    method CheckTosMounted(path: string) returns (err: bool)
      requires AtMostOne(mounts) && coming.Keys <= {path} && (coming != map[] ==> Stack(path) == [])
      modifies this`mounts, this`coming
      ensures AtMostOne(mounts) && coming == map[] && SameBut(old(mounts), mounts, path, path)
      ensures Stack(path) == old(Stack(path)) || (path in old(coming) && Stack(path) == [old(coming)[path]])
      ensures !err ==> Stack(path) != []
      ensures faultless && (Stack(path) != [] || path in old(coming)) ==> !err
    {
      hide AtMostOne, SameBut;
      Same(mounts, path, path);
      var notMnt := true;
      var i := 0;
      while i < 20 && notMnt
        invariant 0 <= i <= 20
        invariant AtMostOne(mounts) && SameBut(old(mounts), mounts, path, path)
        invariant if Stack(path) == old(Stack(path)) then coming == old(coming) || coming == map[]
                  else coming == map[] && path in old(coming) && Stack(path) == [old(coming)[path]]
        invariant if notMnt then i > 0 ==> Stack(path) == [] else Stack(path) != []
        invariant coming != map[] ==> Stack(path) == []
        invariant faultless ==> (Stack(path) != [] || path in old(coming) ==> Stack(path) != [] || (i < 20 && path in coming))
      {
        var arrives: bool, checkFails: bool := *, *;
        if (arrives || (faultless && i == 19)) && path in coming {
          Put(mounts, path, [coming[path]]);
          SameOn(old(mounts), mounts, mounts[path := [coming[path]]], path, path, path);
          mounts := mounts[path := [coming[path]]];
          coming := map[];
        }
        if checkFails && !faultless {
          coming := map[];
          return true;
        }
        notMnt := Stack(path) == [];
        i := i + 1;
      }
      coming := map[];
      return notMnt;
    }

    /** os.MkdirAll(filepath.Join(mountPoint, subPath)) under a mount of a bucket's root. */
    method MkdirInBucket(mountPoint: string, subPath: string) returns (err: bool)
      requires Rooted(mountPoint) && Stack(mountPoint) != []
      modifies this`dirs
      ensures dirs == old(dirs) + if err then {} else MadeIn(Stack(mountPoint)[|Stack(mountPoint)| - 1].bucket, mountPoint, subPath)
      ensures faultless ==> !err
    {
      hide MadeIn;
      var fails: bool := *;
      if fails && !faultless {
        return true;
      }
      dirs := dirs + MadeIn(Stack(mountPoint)[|Stack(mountPoint)| - 1].bucket, mountPoint, subPath);
      return false;
    }

    // ----- Publishing -----

    /** The first half: mounts the bucket on the temporary path, makes the sub path, unmounts and removes
        the temporary path. */
    method MakeSubPath(options: Options, subPath: string, tosTmpPath: string) returns (err: bool, ghost s: TmpSteps)
      requires Valid() && Rooted(tosTmpPath) && options.path == ""
      modifies this
      ensures Valid() && SameBut(old(mounts), mounts, tosTmpPath, tosTmpPath)
      ensures err <==> TmpFails(old(Stack(tosTmpPath)), s)
      ensures var layer := Layer(options.url, options.bucket, "", true);
        && Stack(tosTmpPath) == TmpLeft(old(Stack(tosTmpPath)), layer, s)
        && (!err ==> Launched(old(Stack(tosTmpPath)), layer, s.arrives) != [])
      ensures !err ==> Stack(tosTmpPath) == [] && tosTmpPath !in paths
      ensures !err ==> dirs == old(dirs) + MadeIn(BucketUsed(old(Stack(tosTmpPath)), options), tosTmpPath, subPath)
      ensures (faultless ==> !err) && (unmountsWork ==> !s.unmount)
    {
      hide AtMostOne, SameBut, MadeIn;
      Same(mounts, tosTmpPath, tosTmpPath);
      AtMost(mounts, tosTmpPath);
      s := TMP_WORKS;
      if Stack(tosTmpPath) == [] {
        err := Launch(options, true, tosTmpPath);
        if err {
          s := s.(launch := true, arrives := Stack(tosTmpPath) != []);
          return;
        }
      }
      ghost var t1 := mounts;
      err := CheckTosMounted(tosTmpPath);
      s := s.(poll := err, arrives := Stack(tosTmpPath) != []);
      SameOn(old(mounts), t1, mounts, tosTmpPath, tosTmpPath, tosTmpPath);
      if err {
        return;
      }
      err := MkdirInBucket(tosTmpPath, subPath);
      s := s.(mkdir := err);
      if err {
        return;
      }
      ghost var t2 := mounts;
      err := Unmount(tosTmpPath);
      s := s.(unmount := err);
      SameOn(old(mounts), t2, mounts, tosTmpPath, tosTmpPath, tosTmpPath);
      if err {
        return;
      }
      err := Remove(tosTmpPath);
      s := s.(remove := err);
    }

    /** The second half: mounts the sub path on the target, unless something is mounted there. */
    method MountTarget(options: Options, targetPath: string) returns (code: Code, err: bool, ghost s: TargetSteps)
      requires Valid()
      modifies this`mounts, this`paths, this`coming
      ensures Valid() && SameBut(old(mounts), mounts, targetPath, targetPath)
      ensures (err <==> code != OK) && code in {OK, Internal, Unknown} && (faultless ==> !err)
      ensures err <==> TargetFails(old(Stack(targetPath)), s)
      ensures var layer := Layer(options.url, options.bucket, options.path, false);
        && Stack(targetPath) == TargetLeft(old(Stack(targetPath)), layer, s)
        && (!err ==> Launched(old(Stack(targetPath)), layer, s.arrives) != [])
      ensures !err ==> Stack(targetPath) != [] && targetPath in paths
      ensures forall p | p != targetPath :: p in paths <==> p in old(paths)
    {
      hide AtMostOne, SameBut;
      Same(mounts, targetPath, targetPath);
      s := TARGET_WORKS;
      err := MkdirAll(targetPath);
      if err {
        s := s.(make := true);
        return Internal, true, s;
      }
      err := *;
      err := err && !faultless;
      if err {
        s := s.(check := true);
        return Unknown, true, s;
      }
      if Stack(targetPath) != [] {
        return OK, false, s;
      }
      err := Launch(options, false, targetPath);
      if err {
        s := s.(launch := true, arrives := Stack(targetPath) != []);
        return Internal, true, s;
      }
      ghost var t1 := mounts;
      err := CheckTosMounted(targetPath);
      s := s.(poll := err, arrives := Stack(targetPath) != []);
      SameOn(old(mounts), t1, mounts, targetPath, targetPath, targetPath);
      return if err then Internal else OK, err, s;
    }

    /** The deferred cleanup: two unmounts whose errors are ignored. */
    method CleanUp(tosTmpPath: string, targetPath: string) returns (ghost tmpFails: bool, ghost targetFails: bool)
      requires Valid() && tosTmpPath != targetPath
      modifies this`mounts
      ensures unmountsWork ==> !tmpFails && !targetFails
      ensures Valid() && SameBut(old(mounts), mounts, tosTmpPath, targetPath)
      ensures Stack(tosTmpPath) == if tmpFails then old(Stack(tosTmpPath)) else Popped(old(Stack(tosTmpPath)))
      ensures Stack(targetPath) == if targetFails then old(Stack(targetPath)) else Popped(old(Stack(targetPath)))
    {
      hide AtMostOne, SameBut;
      Same(mounts, tosTmpPath, targetPath);
      var err := Unmount(tosTmpPath);
      tmpFails := err && Stack(tosTmpPath) != [];
      SameOn(old(mounts), old(mounts), mounts, tosTmpPath, targetPath, tosTmpPath);
      ghost var t1 := mounts;
      err := Unmount(targetPath);
      targetFails := err && Stack(targetPath) != [];
      SameOn(old(mounts), t1, mounts, tosTmpPath, targetPath, targetPath);
    }

    /** Everything the deferred cleanup guards, then the cleanup itself, which looks at the shared error.
        OK leaves the target mounted and the temporary path unmounted and removed; an error leaves both
        unmounted, wherever it struck, unless an unmount of the cleanup fails. */
    method PublishGuarded(given: Options, tosTmpPath: string, targetPath: string) returns (code: Code, ghost s: Steps)
      requires Valid() && Rooted(tosTmpPath) && tosTmpPath != targetPath
      modifies this
      ensures Valid()
      ensures PublishStep(old(mounts), mounts, tosTmpPath, targetPath, given, s, code == OK)
      ensures unmountsWork ==> !s.tmp.unmount && !s.cleanTmp && !s.cleanTarget
      ensures code in {OK, Internal, Unknown} && (faultless ==> code == OK)
      ensures code == OK ==>
                && Stack(tosTmpPath) == [] && tosTmpPath !in paths && |Stack(targetPath)| == 1 && targetPath in paths
                && dirs == old(dirs) + MadeIn(BucketUsed(old(Stack(tosTmpPath)), given), tosTmpPath, given.path)
      ensures code != OK ==> (s.cleanTmp || Stack(tosTmpPath) == []) && (s.cleanTarget || Stack(targetPath) == [])
    {
      hide AtMostOne, SameBut, MadeIn, TmpFails, TargetFails, TmpLeft, TargetLeft;
      Same(mounts, tosTmpPath, targetPath);
      s := Steps(TMP_WORKS, TARGET_WORKS, false, false);
      var err;
      ghost var first;
      err, first := MakeSubPath(given.(path := ""), given.path, tosTmpPath);
      s := s.(tmp := first);
      SameOn(old(mounts), old(mounts), mounts, tosTmpPath, targetPath, tosTmpPath);
      code := Internal;
      if !err {
        ghost var t1, second := mounts, TARGET_WORKS;
        code, err, second := MountTarget(given, targetPath);
        s := s.(target := second);
        SameOn(old(mounts), t1, mounts, tosTmpPath, targetPath, targetPath);
      }
      AtMost(mounts, tosTmpPath);
      AtMost(mounts, targetPath);
      if err {
        ghost var before, cleanTmp, cleanTarget := mounts, false, false;
        cleanTmp, cleanTarget := CleanUp(tosTmpPath, targetPath);
        s := s.(cleanTmp := cleanTmp, cleanTarget := cleanTarget);
        SameTwice(old(mounts), before, mounts, tosTmpPath, targetPath);
      }
    }

    /** NodePublishVolume.  `deferred` says whether the call got as far as its deferred cleanup, with
        which options; before that nothing has been mounted or unmounted. */
    method NodePublishVolume(volID: string, targetPath: string, hasCapability: bool, attributes: map<string, string>,
                             hasCredential: bool)
      returns (code: Code, ghost deferred: bool, ghost options: Options, ghost s: Steps)
      requires Valid() && targetPath != TempPath(PodUID(attributes), volID)
      modifies this
      ensures Valid()
      ensures !deferred ==> code != OK && mounts == old(mounts) && dirs == old(dirs)
      ensures code == Code.Panicked <==>
              && volID != "" && targetPath != "" && hasCapability
              && exists k | k in attributes :: Spells(k, "url") && |attributes[k]| < 2
      ensures faultless && !deferred ==>
                || volID == "" || targetPath == "" || !hasCapability || !hasCredential || code == Code.Panicked
                || !Names(attributes, "url") || !Names(attributes, "bucket") || Sets(attributes, "bucket", "")
      ensures faultless && deferred ==> code == OK
      ensures faultless && !deferred ==> code in {InvalidArgument, Code.Panicked}
      ensures volID == "" || targetPath == "" || !hasCapability ==> code == InvalidArgument
      ensures unmountsWork ==> !s.tmp.unmount && !s.cleanTmp && !s.cleanTarget
      ensures deferred ==>
                && FromAttributes(attributes, options)
                && (exists order | IsOrder(order, attributes.Keys) ::
                      Validated(WithDefault(ParseInOrder(attributes, order))) == Parsed(options))
                && (code == OK && old(Stack(targetPath)) == [] ==>
                      Stack(targetPath) == [Layer(options.url, options.bucket, options.path, false)])
                && var tmp := TempPath(PodUID(attributes), volID);
                   && PublishStep(old(mounts), mounts, tmp, targetPath, options, s, code == OK)
                   && (code == OK ==>
                         && Stack(tmp) == [] && tmp !in paths && |Stack(targetPath)| == 1 && targetPath in paths
                         && dirs == old(dirs) + MadeIn(BucketUsed(old(Stack(tmp)), options), tmp, options.path))
                   && (code != OK ==> (s.cleanTmp || Stack(tmp) == []) && (s.cleanTarget || Stack(targetPath) == []))
    {
      hide AtMostOne, SameBut, TempPath, ParseInOrder, PublishStep, MadeIn, Spells, FromAttributes, Names, Sets, Panics;
      deferred, options, s := false, NO_OPTIONS, Steps(TMP_WORKS, TARGET_WORKS, false, false);
      if volID == "" || targetPath == "" || !hasCapability {
        return InvalidArgument, deferred, options, s;
      }
      var parsed, order := ParseTosfsOptions(attributes);
      if parsed.Panicked? {
        return Code.Panicked, deferred, options, s;
      } else if parsed.Invalid? {
        return InvalidArgument, deferred, options, s;
      }
      var fails: bool := *;
      if !hasCredential {
        return InvalidArgument, deferred, options, s;
      }
      var podUID := if "csi.storage.k8s.io/pod.uid" in attributes then attributes["csi.storage.k8s.io/pod.uid"] else "";
      var tosTmpPath := TempPath(podUID, volID);
      var err := MkdirAll(tosTmpPath);
      if err || (fails && !faultless) {
        return Internal, deferred, options, s;
      }
      deferred, options := true, parsed.options;
      ghost var before := mounts;
      code, s := PublishGuarded(parsed.options, tosTmpPath, targetPath);
      if code == OK && StackAt(before, targetPath) == [] {
        FreeTarget(before, mounts, tosTmpPath, targetPath, options, s);
      }
    }

    /** OK means nothing is mounted on the target. */
    method NodeUnpublishVolume(volID: string, targetPath: string) returns (code: Code)
      requires Valid()
      modifies this`mounts
      ensures Valid() && SameBut(old(mounts), mounts, targetPath, targetPath)
      ensures code in {OK, InvalidArgument, Internal} && (code == InvalidArgument <==> volID == "" || targetPath == "")
      ensures code == OK ==> Stack(targetPath) == []
      ensures code != OK ==> mounts == old(mounts)
      ensures faultless || unmountsWork ==> code != Internal
    {
      if volID == "" || targetPath == "" {
        return InvalidArgument;
      }
      var err := Unmount(targetPath);
      if err && Stack(targetPath) != [] {
        return Internal;
      }
      return OK;
    }
  }

  ghost function PodUID(attributes: map<string, string>): string {
    if "csi.storage.k8s.io/pod.uid" in attributes then attributes["csi.storage.k8s.io/pod.uid"] else ""
  }
}
