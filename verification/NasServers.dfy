/** The imperative part of pkg/nas: a host with a mount table in front of an NFS export.  Every mount,
    unmount, directory operation and rename may fail; a mount-point check reports the mount table. */
module NasServers {
  import Strings
  import opened Paths
  import opened NasPaths
  import opened NasExport
  import opened MountOptions
  import opened NasDriver

  datatype Code = OK | InvalidArgument | FailedPrecondition | Internal | Panicked

  // ----- The mount table -----

  /** One mount: what is mounted and with which options. */
  datatype Layer = Layer(source: string, options: seq<string>)

  type Table = map<string, seq<Layer>>

  function LayersAt(t: Table, mountPoint: string): seq<Layer> {
    if mountPoint in t then t[mountPoint] else []
  }

  /** Only these two mount points may differ. */
  ghost predicate SameBut(t: Table, t': Table, a: string, b: string) {
    forall m | m != a && m != b :: LayersAt(t', m) == LayersAt(t, m)
  }

  lemma SameThrough(t: Table, t1: Table, t2: Table, a: string, b: string)
    requires t == t1 || SameBut(t, t1, a, b) || SameBut(t, t1, b, b) || SameBut(t, t1, a, a)
    requires t1 == t2 || SameBut(t1, t2, a, b) || SameBut(t1, t2, b, b) || SameBut(t1, t2, a, a)
    ensures SameBut(t, t2, a, b)
  {
  }

  lemma SameAt(t: Table, t': Table, a: string, b: string, m: string)
    requires SameBut(t, t', a, b) && m != a && m != b
    ensures LayersAt(t', m) == LayersAt(t, m)
  {
  }

  lemma Put(t: Table, m: string, stack: seq<Layer>)
    ensures SameBut(t, t[m := stack], m, m) && LayersAt(t[m := stack], m) == stack
  {
  }

  predicate At(s: string, sub: string, i: nat) {
    i + |sub| <= |s| && s[i..i + |sub|] == sub
  }

  /** strings.Contains */
  predicate Contains(s: string, sub: string) {
    exists i: nat | i <= |s| :: At(s, sub, i)
  }

  lemma ContainsIff(s: string, sub: string)
    ensures Contains(s, sub) <==> exists a: string, b: string :: a + sub + b == s
  {
    if Contains(s, sub) {
      var i: nat :| i <= |s| && At(s, sub, i);
      assert s[..i] + sub + s[i + |sub|..] == s;
    }
    if exists a: string, b: string :: a + sub + b == s {
      var a, b :| a + sub + b == s;
      assert At(s, sub, |a|);
    }
  }

  /** The line of /proc/mounts for a mount of `source` on `mountPoint`. */
  function MountLine(server: string, mountPoint: string, source: string): string {
    server + ":" + source + " " + mountPoint + " nfs"
  }

  lemma LineNamesSource(server: string, mountPoint: string, source: string)
    ensures Contains(MountLine(server, mountPoint, source), source)
  {
    var a, c := server + ":", " " + mountPoint + " nfs";
    assert MountLine(server, mountPoint, source) == a + source + c;
    assert At(a + source + c, source, |a|);
  }

  /** isNfsPathMounted, where the lines that mention the mount point are those of its own mounts. */
  predicate AlreadyMounted(server: string, mountPoint: string, stack: seq<Layer>, path: string) {
    exists l | l in stack :: Contains(MountLine(server, mountPoint, l.source), path)
  }

  /** What mounting `layer` leaves on a mount point. */
  function MountedOnto(server: string, mountPoint: string, stack: seq<Layer>, layer: Layer): seq<Layer> {
    if AlreadyMounted(server, mountPoint, stack, layer.source) then stack else stack + [layer]
  }

  /** The path a mount point then shows. */
  function Shows(server: string, mountPoint: string, stack: seq<Layer>, path: string): string {
    if AlreadyMounted(server, mountPoint, stack, path) then stack[|stack| - 1].source else path
  }

  /** Nothing is mounted, or just this path. */
  predicate Fresh(stack: seq<Layer>, path: string) {
    stack == [] || (|stack| == 1 && stack[0].source == path)
  }

  /** A mount point used for one path keeps one layer and shows that path. */
  lemma FreshMount(server: string, mountPoint: string, stack: seq<Layer>, layer: Layer)
    requires Fresh(stack, layer.source)
    ensures var stack' := MountedOnto(server, mountPoint, stack, layer);
      |stack'| == 1 && Fresh(stack', layer.source) && Shows(server, mountPoint, stack, layer.source) == layer.source
  {
    LineNamesSource(server, mountPoint, layer.source);
    if stack != [] {
      assert stack[0] in stack;
    }
  }

  /** In general it keeps one layer if and only if nothing was mounted or the line of what was has the path
      asked for somewhere in it. */
  lemma OneLayerIff(server: string, mountPoint: string, stack: seq<Layer>, layer: Layer)
    requires |stack| <= 1
    ensures |MountedOnto(server, mountPoint, stack, layer)| <= 1 <==>
              stack == [] ||
              exists a: string, b: string :: a + layer.source + b == server + ":" + stack[0].source + " " + mountPoint + " nfs"
  {
    if stack != [] {
      ContainsIff(MountLine(server, mountPoint, stack[0].source), layer.source);
      assert stack[0] in stack && forall l | l in stack :: l == stack[0];
    }
  }

  /** An OK create makes its directory below what the mount point shows, so at the path it records if and
      only if that is the parent's directory. */
  lemma RecordedWhereMade(shown: string, parent: string, pvName: string)
    requires Rooted(parent) && NeverClimbs(Split(pvName))
    ensures Components(shown) + Follow([], Split(pvName)) == Components(Join(parent, pvName)) <==>
              Components(shown) == Components(parent)
  {
    hide Components, Split, Follow, NeverClimbs, Join;
    JoinStays(parent, pvName);
    var a, b, rest := Components(shown), Components(parent), Follow([], Split(pvName));
    if a + rest == b + rest {
      assert |a| == |b|;
      assert a == (a + rest)[..|a|] && b == (b + rest)[..|b|];
    }
  }

  /** With the mount of a subdirectory left over, the search finds the parent's path in its line: the
      create makes its directory in the subdirectory, not at the path it records. */
  lemma MadeElsewhere(server: string, mountPoint: string, a: string, b: string, options: seq<string>, pvName: string)
    requires Plain(a) && Plain(b) && NeverClimbs(Split(pvName))
    ensures var parent := PathOf([a]); var shown := Shows(server, mountPoint, [Layer(PathOf([a, b]), options)], parent);
      && shown == PathOf([a, b])
      && Components(shown) + Follow([], Split(pvName)) != Components(Join(parent, pvName))
  {
    hide Components, Split, Follow, NeverClimbs, Join;
    var parent, layer := PathOf([a]), Layer(PathOf([a, b]), options);
    PathOfComponents([a]);
    PathOfComponents([a, b]);
    LineNamesPrefix(server, mountPoint, a, b);
    assert layer in [layer];
    RecordedWhereMade(PathOf([a, b]), parent, pvName);
  }

  lemma LineNamesPrefix(server: string, mountPoint: string, a: string, b: string)
    ensures Contains(MountLine(server, mountPoint, PathOf([a, b])), PathOf([a]))
  {
    assert [a, b][1..] == [b];
    assert Strings.Join([a, b], '/') == a + ['/'] + b;
    var head, tail := server + ":", "/" + b + " " + mountPoint + " nfs";
    assert PathOf([a, b]) == PathOf([a]) + "/" + b;
    assert MountLine(server, mountPoint, PathOf([a, b])) == head + PathOf([a]) + tail;
    assert At(head + PathOf([a]) + tail, PathOf([a]), |head|);
  }

  // ----- The temporary mount of the fallback -----

  /** Which steps of one createNasSubDir fail. */
  datatype Faults = Faults(dest: bool, check: bool, clear: bool, mount: bool, mkdir: bool, unmount: bool)

  /** The stack before the mount: a failing check reads as "not mounted", its error is dropped. */
  function Cleared(stack: seq<Layer>, f: Faults): seq<Layer> {
    if stack == [] || f.check || f.clear then stack else stack[..|stack| - 1]
  }

  predicate MountFails(stack: seq<Layer>, f: Faults) {
    f.dest || (stack != [] && !f.check && f.clear) || f.mount
  }

  /** The stack at its highest. */
  function TempPeak(stack: seq<Layer>, layer: Layer, f: Faults): seq<Layer> {
    if f.dest then stack
    else if MountFails(stack, f) then Cleared(stack, f)
    else Cleared(stack, f) + [layer]
  }

  /** The stack afterwards: a failed mkdir or unmount leaves the mount behind. */
  function TempAfter(stack: seq<Layer>, layer: Layer, f: Faults): seq<Layer> {
    var peak := TempPeak(stack, layer, f);
    if FallsShort(stack, f) then peak else peak[..|peak| - 1]
  }

  /** The fallback as a whole fails. */
  predicate FallsShort(stack: seq<Layer>, f: Faults) {
    MountFails(stack, f) || f.mkdir || f.unmount
  }

  /** The stack after a sequence of fallbacks for one volume. */
  function TempRun(stack: seq<Layer>, calls: seq<(Layer, Faults)>): seq<Layer> {
    if calls == [] then stack else
      var n := |calls| - 1;
      TempAfter(TempRun(stack, calls[..n]), calls[n].0, calls[n].1)
  }

  /** Call `i` mounts onto a left-over mount because its check failed. */
  predicate Overmounts(calls: seq<(Layer, Faults)>, i: nat)
    requires i < |calls|
  {
    TempRun([], calls[..i]) != [] && calls[i].1.check && !calls[i].1.dest && !calls[i].1.mount
  }

  /** The highest the stack gets during call `i`. */
  function PeakIn(calls: seq<(Layer, Faults)>, i: nat): nat
    requires i < |calls|
  {
    |TempPeak(TempRun([], calls[..i]), calls[i].0, calls[i].1)|
  }

  lemma OneCall(stack: seq<Layer>, layer: Layer, f: Faults)
    requires |stack| <= 1
    ensures |TempPeak(stack, layer, f)| <= 1 <==> !(stack != [] && f.check && !f.dest && !f.mount)
    ensures |TempPeak(stack, layer, f)| <= 1 ==> |TempAfter(stack, layer, f)| <= 1
  {
  }

  lemma {:induction false} TempNeverTwo(calls: seq<(Layer, Faults)>, n: nat)
    requires n <= |calls| && forall i | 0 <= i < n :: !Overmounts(calls, i)
    ensures |TempRun([], calls[..n])| <= 1
    ensures forall i | 0 <= i < n :: PeakIn(calls, i) <= 1
  {
    hide TempAfter, TempPeak;
    if n > 0 {
      TempNeverTwo(calls, n - 1);
      assert calls[..n][..n - 1] == calls[..n - 1];
      OneCall(TempRun([], calls[..n - 1]), calls[n - 1].0, calls[n - 1].1);
      assert !Overmounts(calls, n - 1);
    }
  }

  /** Through every sequence of fallbacks with any mount, mkdir and unmount failures, the temporary path
      carries at most one layer in every state if and only if no call's check fails while a mount is
      left over and its own mount succeeds. */
  lemma TempOneLayerIff(calls: seq<(Layer, Faults)>)
    ensures (forall i | 0 <= i < |calls| :: PeakIn(calls, i) <= 1) <==> (forall i | 0 <= i < |calls| :: !Overmounts(calls, i))
  {
    if exists i | 0 <= i < |calls| :: Overmounts(calls, i) {
      var k := FirstOvermount(calls);
      TempNeverTwo(calls, k);
      assert Overmounts(calls, k);
      OneCall(TempRun([], calls[..k]), calls[k].0, calls[k].1);
      assert PeakIn(calls, k) > 1;
    } else {
      TempNeverTwo(calls, |calls|);
    }
  }

  lemma FirstOvermount(calls: seq<(Layer, Faults)>) returns (k: nat)
    requires exists i | 0 <= i < |calls| :: Overmounts(calls, i)
    ensures k < |calls| && Overmounts(calls, k) && forall i | 0 <= i < k :: !Overmounts(calls, i)
  {
    hide Overmounts;
    k := 0;
    while !Overmounts(calls, k)
      invariant k < |calls| && forall i | 0 <= i < k :: !Overmounts(calls, i)
      invariant exists i | k <= i < |calls| :: Overmounts(calls, i)
      decreases |calls| - k
    {
      k := k + 1;
    }
  }

  /** It does happen: one call leaves its mount behind, the check of the next fails. */
  lemma TwoTempLayers(layer: Layer)
    ensures var left, blind := Faults(false, false, false, false, false, true), Faults(false, true, false, false, true, false);
      && TempAfter([], layer, left) == [layer]
      && TempAfter([layer], layer, blind) == [layer, layer]
      && TempRun([], [(layer, left), (layer, blind)]) == [layer, layer]
  {
    var left, blind := Faults(false, false, false, false, false, true), Faults(false, true, false, false, true, false);
    var calls := [(layer, left), (layer, blind)];
    assert [] + [layer] == [layer] && [layer] + [layer] == [layer, layer];
    assert calls[..1] == [(layer, left)] && calls[..1][..0] == [];
    assert TempRun([], calls[..1]) == TempAfter([], layer, left);
  }

  /** The steps after the mount do not change how high the stack got. */
  lemma SameFaults(stack: seq<Layer>, layer: Layer, f: Faults, f': Faults)
    requires f' == f.(mkdir := f'.mkdir, unmount := f'.unmount)
    ensures TempPeak(stack, layer, f') == TempPeak(stack, layer, f) && MountFails(stack, f') == MountFails(stack, f)
  {
  }

  /** Whether a mount tried the fallback. */
  datatype Fallback = NotTried | Tried(faults: Faults)

  /** The fallback was tried and failed. */
  predicate FellShort(stack: seq<Layer>, fb: Fallback) {
    fb.Tried? && FallsShort(stack, fb.faults)
  }

  function TempLeft(stack: seq<Layer>, layer: Layer, fb: Fallback): seq<Layer> {
    match fb
    case NotTried => stack
    case Tried(f) => TempAfter(stack, layer, f)
  }

  /** What doNfsMount does to its mount point and to the temporary path. */
  ghost predicate Mounting(server: string, t: Table, t': Table, fsId: string, path: string, options: seq<string>,
                           mountPoint: string, tmp: string, err: bool, fb: Fallback)
  {
    && LayersAt(t', mountPoint) == (if err then LayersAt(t, mountPoint)
                                    else MountedOnto(server, mountPoint, LayersAt(t, mountPoint), Layer(path, options)))
    && LayersAt(t', tmp) == TempLeft(LayersAt(t, tmp), Layer("/" + fsId, options), fb)
    && (FellShort(LayersAt(t, tmp), fb) ==> err)
    && (AlreadyMounted(server, mountPoint, LayersAt(t, mountPoint), path) ==> fb.NotTried?)
  }

  /** Nothing here stacks mounts. */
  ghost predicate Calm(checksWork: bool, t: Table, mountPoint: string, tmp: string, path: string) {
    checksWork && mountPoint != tmp && |LayersAt(t, tmp)| <= 1 && Fresh(LayersAt(t, mountPoint), path)
  }

  lemma FreshOne(server: string, mountPoint: string, stack: seq<Layer>, path: string)
    ensures AlreadyMounted(server, mountPoint, stack, path) ==> stack != []
    ensures Fresh(stack, path) && !AlreadyMounted(server, mountPoint, stack, path) ==> stack == []
  {
    LineNamesSource(server, mountPoint, path);
    if stack != [] {
      assert stack[0] in stack;
    }
  }

  // ----- Directory operations -----

  /** What an attempt to make `target` does to the export. */
  ghost predicate Made(ex: Export, ex': Export, target: Dir, err: bool) {
    && GrownTo(ex, ex', target)
    && (!err ==> HasDir(ex', target))
    && (HasDir(ex, target) ==> ex' == ex)
  }

  /** Nothing was made. */
  lemma Unharmed(ex: Export, target: Dir)
    ensures Grown(ex, ex) && Made(ex, ex, target, true)
  {
  }

  /** The fallback can make the sub path. */
  ghost predicate CanFallBack(ex: Export, fsId: string, subPath: string) {
    HasDir(ex, Components("/" + fsId)) && CanMkdir(ex, Components(MountedPath(fsId, subPath)))
  }

  /** Mounting `subPath` of the file system can work: it is there, or the fallback can make it. */
  ghost predicate Reachable(ex: Export, fsId: string, subPath: string) {
    || HasDir(ex, Components(MountedPath(fsId, subPath)))
    || (NeverClimbs(Split(subPath)) && CanFallBack(ex, fsId, subPath))
  }

  /** A create can work on this export. */
  ghost predicate CanCreate(ex: Export, params: map<string, string>, pvName: string) {
    && Reachable(ex, ParamOr(params, "fsId", ""), NormalSubPath(ParamOr(params, "subPath", "")))
    && NeverClimbs(Split(pvName)) && CanMkdir(ex, Components(ParentPath(params)) + Follow([], Split(pvName)))
  }

  lemma {:induction false} StillCanMkdir(ex: Export, ex': Export, d: Dir)
    requires Grown(ex, ex')
    ensures CanMkdir(ex, d) ==> CanMkdir(ex', d)
  {
    if d != [] {
      StillCanMkdir(ex, ex', d[..|d| - 1]);
    }
  }

  lemma MadeThere(ex: Export, target: Dir)
    ensures forall ex' | Made(ex, ex', target, false) :: HasDir(ex', target)
  {
  }

  lemma RootIsThere(ex: Export, path: string)
    requires ExportOk(ex) && Rooted(path)
    ensures path == "/" ==> HasDir(ex, Components(path))
  {
    if path == "/" {
      PathOfComponents([]);
      assert PathOf([]) == "/";
    }
  }

  /** Making the way to `target`, or a first part of it. */
  lemma PartWay(ex: Export, reached: Dir, target: Dir)
    requires ExportOk(ex) && CanMkdir(ex, reached) && Under(reached, target)
    ensures var ex' := MkdirAll(ex, reached);
      && ExportOk(ex') && Grown(ex, ex')
      && Made(ex, ex', target, true)
      && (reached == target ==> Made(ex, ex', target, false))
  {
    MkdirAllShape(ex, reached);
    var ex' := MkdirAll(ex, reached);
    forall p | p in ex' && p !in ex ensures Under(p, target) {
      assert Under(p, reached);
      assert target[..|reached|] == reached && reached[..|p|] == target[..|p|];
    }
    if HasDir(ex, target) {
      NothingBelow(ex, reached, target);
    }
  }

  lemma MadeAnyway(ex: Export, ex': Export, target: Dir)
    ensures Made(ex, ex', target, false) ==> Made(ex, ex', target, true)
  {
  }

  lemma WithoutOk(ex: Export, d: Dir)
    requires ExportOk(ex) && d != []
    ensures ExportOk(Without(ex, d))
  {
    RemoveTakesOnlyVolume(ex, d[..|d| - 1], d[|d| - 1]);
    assert d == d[..|d| - 1] + [d[|d| - 1]];
  }

  /** Nothing outside the two directories was lost or changed. */
  ghost predicate Untouched(ex: Export, ex': Export, vol: Dir, arch: Dir) {
    forall p | p in ex && !Under(vol, p) && !Under(arch, p) :: p in ex' && ex'[p] == ex[p]
  }

  lemma SubtreeKeys(ex: Export, d: Dir)
    ensures Subtree(ex, d).Keys == Below(ex, d)
  {
  }

  /** os.Rename */
  function Renamed(ex: Export, from: Dir, to: Dir): Export {
    Moved(Without(ex, to), from, to)
  }

  lemma RenameOk(ex: Export, parent: Dir, from: string, to: string)
    requires ExportOk(ex) && from != to && CanRename(ex, parent + [from], parent + [to])
    ensures parent + [from] in ex && ExportOk(Renamed(ex, parent + [from], parent + [to]))
    ensures parent + [to] !in ex ==> Renamed(ex, parent + [from], parent + [to]) == Moved(ex, parent + [from], parent + [to])
    ensures Untouched(ex, Renamed(ex, parent + [from], parent + [to]), parent + [from], parent + [to])
    ensures parent + [from] !in Renamed(ex, parent + [from], parent + [to])
  {
    hide Moved, Subtree, Graft;
    var vol, arch := parent + [from], parent + [to];
    var cleared := Without(ex, arch);
    RemoveTakesOnlyVolume(ex, parent, to);
    SiblingsApart(parent, from, to);
    assert Under(vol, vol) && Under(arch, arch);
    ArchiveConserves(cleared, parent, from, to);
    var ex' := Renamed(ex, vol, arch);
    assert vol !in ex' by {
      BelowIff(ex', vol, []);
      assert vol + [] == vol;
      assert [] !in Subtree(ex', vol) by { assert Subtree(ex', vol) == map[]; }
      SubtreeKeys(ex', vol);
    }
    if arch !in ex {
      forall p | p in ex ensures !Under(arch, p) {
        if Under(arch, p) {
          NothingBelow(ex, arch, p);
        }
      }
      assert cleared == ex;
    }
  }

  class Host {
    const server: string
    const vci: bool          // the instance has no mount privilege
    const faultless: bool    // no system call fails without a reason in this state
    const checksWork: bool   // the mount-point check of createNasSubDir does not fail
    const unmountsWork: bool // what is mounted can be unmounted

    var tree: Export
    var mounts: Table

    /** The most layers that a mount put on one mount point. */
    ghost var most: nat

    function Layers(mountPoint: string): seq<Layer>
      reads this
    {
      LayersAt(mounts, mountPoint)
    }

    /** What works does not fail. */
    ghost predicate Allowed(f: Faults) {
      && (checksWork ==> !f.check)
      && (unmountsWork ==> !f.clear && !f.unmount)
    }

    // ----- System calls -----

    method Mount(source: string, mountPoint: string, options: seq<string>) returns (err: bool)
      modifies this`mounts, this`most
      ensures err ==> mounts == old(mounts) && most == old(most)
      ensures !err ==> HasDir(tree, Components(source))
                       && mounts == old(mounts)[mountPoint := old(Layers(mountPoint)) + [Layer(source, options)]]
                       && most == if |Layers(mountPoint)| > old(most) then |Layers(mountPoint)| else old(most)
      ensures faultless && HasDir(tree, Components(source)) ==> !err
    {
      hide Components;
      var fails: bool := *;
      if (fails && !faultless) || !HasDir(tree, Components(source)) {
        return true;
      }
      mounts := mounts[mountPoint := Layers(mountPoint) + [Layer(source, options)]];
      if |Layers(mountPoint)| > most {
        most := |Layers(mountPoint)|;
      }
      return false;
    }

    method Unmount(mountPoint: string) returns (err: bool)
      modifies this`mounts
      ensures err ==> mounts == old(mounts)
      ensures !err ==> old(Layers(mountPoint)) != []
                       && mounts == old(mounts)[mountPoint := old(Layers(mountPoint))[..|old(Layers(mountPoint))| - 1]]
      ensures (faultless || unmountsWork) && old(Layers(mountPoint)) != [] ==> !err
    {
      var fails: bool := *;
      if (fails && !faultless && !unmountsWork) || Layers(mountPoint) == [] {
        return true;
      }
      mounts := mounts[mountPoint := Layers(mountPoint)[..|Layers(mountPoint)| - 1]];
      return false;
    }

    /** The server directory mounted last. */
    function TopDir(mountPoint: string): Dir
      requires Layers(mountPoint) != []
      reads this
    {
      Components(Layers(mountPoint)[|Layers(mountPoint)| - 1].source)
    }

    /** The server directory that a local path under a mount shows. */
    function Shown(mountPoint: string, local: string): Dir
      requires Layers(mountPoint) != [] && Under(Components(mountPoint), Components(local))
      reads this
    {
      TopDir(mountPoint) + Components(local)[|Components(mountPoint)|..]
    }

    /** Makes the directory `dest`, given by its local path, under a mount on `mountPoint`.  A failure
        may leave part of the way made.  A path that leads out of the mount lands on a local directory,
        or on whatever else is mounted there. */
    method MkdirUnder(mountPoint: string, dest: string) returns (err: bool)
      requires ExportOk(tree) && Layers(mountPoint) != []
      modifies this`tree
      ensures ExportOk(tree) && Grown(old(tree), tree)
      ensures Under(Components(mountPoint), Components(dest)) ==>
                && Made(old(tree), tree, Shown(mountPoint, dest), err)
                && (faultless && HasDir(old(tree), TopDir(mountPoint)) && CanMkdir(old(tree), Shown(mountPoint, dest)) ==> !err)
    {
      hide Components, ExportOk, Grown, Made, CanMkdir, MkdirAll, HasDir, GrownTo;
      var top := TopDir(mountPoint);
      var fails: bool := *;
      fails := fails && !faultless;
      var made: int := *;
      if !Under(Components(mountPoint), Components(dest)) {
        var elsewhere: Dir := *;
        Unharmed(tree, elsewhere);
        if CanMkdir(tree, elsewhere) {
          assert Under(elsewhere, elsewhere);
          PartWay(tree, elsewhere, elsewhere);
          tree := MkdirAll(tree, elsewhere);
        }
        return fails;
      }
      var target := top + Components(dest)[|Components(mountPoint)|..];
      var reached := if fails && 0 <= made <= |target| then target[..made] else target;
      Unharmed(tree, target);
      assert Under(reached, target);
      if !HasDir(tree, top) || !CanMkdir(tree, reached) {
        return true;
      }
      PartWay(tree, reached, target);
      tree := MkdirAll(tree, reached);
      return fails;
    }

    method RemoveAll(d: Dir) returns (err: bool)
      requires ExportOk(tree) && d != []
      modifies this`tree
      ensures ExportOk(tree)
      ensures !err ==> tree == Without(old(tree), d)
      ensures faultless ==> !err
      ensures forall p | !Under(d, p) :: (p in tree <==> p in old(tree)) && (p in tree ==> tree[p] == old(tree)[p])
      ensures forall p | p in tree :: p in old(tree) && tree[p] == old(tree)[p]
    {
      hide ExportOk;
      var fails: bool := *;
      if fails && !faultless {
        var kept: set<Dir> := *;
        var part := map p | p in tree && (!Under(d, p) || p in kept) :: tree[p];
        if ExportOk(part) {
          tree := part;
        }
        return true;
      }
      WithoutOk(tree, d);
      tree := Without(tree, d);
      return false;
    }

    method Rename(parent: Dir, from: string, to: string) returns (err: bool)
      requires ExportOk(tree) && from != to
      modifies this`tree
      ensures ExportOk(tree)
      ensures err ==> tree == old(tree)
      ensures !err ==> parent + [from] in old(tree)
                       && (parent + [to] !in old(tree) ==> tree == Moved(old(tree), parent + [from], parent + [to]))
                       && Untouched(old(tree), tree, parent + [from], parent + [to])
                       && parent + [from] !in tree
      ensures faultless && CanRename(old(tree), parent + [from], parent + [to]) ==> !err
    {
      hide ExportOk, CanRename, Renamed, Moved, Untouched;
      var fails: bool := *;
      if (fails && !faultless) || !CanRename(tree, parent + [from], parent + [to]) {
        return true;
      }
      RenameOk(tree, parent, from, to);
      tree := Renamed(tree, parent + [from], parent + [to]);
      return false;
    }

    // ----- Mounting (utils.go) -----

    /** Unmounts what a failed attempt left on the temporary path and mounts the file system root there. */
    method MountTemp(fsId: string, options: seq<string>, nasTmpPath: string) returns (err: bool, ghost f: Faults)
      modifies this`mounts, this`most
      ensures SameBut(old(mounts), mounts, nasTmpPath, nasTmpPath)
      ensures Layers(nasTmpPath) == TempPeak(old(Layers(nasTmpPath)), Layer("/" + fsId, options), f)
      ensures err <==> MountFails(old(Layers(nasTmpPath)), f)
      ensures !err ==> Layers(nasTmpPath) != [] && Layers(nasTmpPath)[|Layers(nasTmpPath)| - 1].source == "/" + fsId
      ensures most <= if |Layers(nasTmpPath)| > old(most) then |Layers(nasTmpPath)| else old(most)
      ensures Allowed(f)
      ensures faultless && HasDir(tree, Components("/" + fsId)) ==> !err
    {
      hide Components, HasDir, SameBut;
      SameThrough(mounts, mounts, mounts, nasTmpPath, nasTmpPath);
      var layer := Layer("/" + fsId, options);
      ghost var stack := Layers(nasTmpPath);
      var destFails: bool, checkFails: bool := *, *;
      destFails, checkFails := destFails && !faultless, checkFails && !faultless && !checksWork;
      f := Faults(destFails, checkFails, false, false, false, false);
      if destFails {
        return true, f;
      }
      if !checkFails && Layers(nasTmpPath) != [] {
        err := Unmount(nasTmpPath);
        f := f.(clear := err);
        Put(old(mounts), nasTmpPath, stack[..|stack| - 1]);
        if err {
          return true, f;
        }
      }
      ghost var cleared := mounts;
      Put(cleared, nasTmpPath, LayersAt(cleared, nasTmpPath) + [layer]);
      err := Mount("/" + fsId, nasTmpPath, options);
      f := f.(mount := err);
      SameThrough(old(mounts), cleared, mounts, nasTmpPath, nasTmpPath);
    }

    /** Makes the sub path under the temporary mount of the file system root, and unmounts. */
    method MakeUnderTemp(fsId: string, subPath: string, volumeID: string) returns (mkdirFails: bool, unmountFails: bool)
      requires ExportOk(tree)
      requires var l := LayersAt(mounts, TempMountPoint(volumeID)); l != [] && l[|l| - 1].source == "/" + fsId
      modifies this`tree, this`mounts
      ensures ExportOk(tree) && Grown(old(tree), tree)
      ensures SameBut(old(mounts), mounts, TempMountPoint(volumeID), TempMountPoint(volumeID))
      ensures var l := old(LayersAt(mounts, TempMountPoint(volumeID)));
        LayersAt(mounts, TempMountPoint(volumeID)) == if mkdirFails || unmountFails then l else l[..|l| - 1]
      ensures unmountsWork ==> !unmountFails
      ensures NeverClimbs(Split(subPath)) ==>
                && Made(old(tree), tree, Components(MountedPath(fsId, subPath)), mkdirFails || unmountFails)
                && (faultless && CanFallBack(old(tree), fsId, subPath) ==> !mkdirFails && !unmountFails)
    {
      hide Components, MountedPath, TempMountPoint, Join, Split, ExportOk, Grown, Made, HasDir, CanMkdir,
           NeverClimbs, SameBut;
      var nasTmpPath := TempMountPoint(volumeID);
      SameThrough(mounts, mounts, mounts, nasTmpPath, nasTmpPath);
      Put(mounts, nasTmpPath, LayersAt(mounts, nasTmpPath)[..|LayersAt(mounts, nasTmpPath)| - 1]);
      if NeverClimbs(Split(subPath)) {
        FallbackMakesMountedDirectory(fsId, subPath, volumeID);
      }
      mkdirFails := MkdirUnder(nasTmpPath, Join(nasTmpPath, subPath));
      if mkdirFails {
        return true, false;
      }
      MadeAnyway(old(tree), tree, Components(MountedPath(fsId, subPath)));
      unmountFails := Unmount(nasTmpPath);
    }

    /** Makes a missing sub path through a temporary mount of the file system root. */
    method CreateNasSubDir(fsId: string, subPath: string, nfsVers: string, nfsOptions: string, volumeID: string)
      returns (err: bool, ghost f: Faults)
      requires ExportOk(tree)
      modifies this`tree, this`mounts, this`most
      ensures ExportOk(tree) && Grown(old(tree), tree)
      ensures SameBut(old(mounts), mounts, TempMountPoint(volumeID), TempMountPoint(volumeID))
      ensures LayersAt(mounts, TempMountPoint(volumeID))
              == TempAfter(old(LayersAt(mounts, TempMountPoint(volumeID))),
                           Layer("/" + fsId, MountOptionList(nfsVers, nfsOptions)), f)
      ensures err <==> FallsShort(old(LayersAt(mounts, TempMountPoint(volumeID))), f)
      ensures Allowed(f)
      ensures checksWork && |old(LayersAt(mounts, TempMountPoint(volumeID)))| <= 1 && old(most) <= 1 ==> most <= 1
      ensures NeverClimbs(Split(subPath)) ==>
                && Made(old(tree), tree, Components(MountedPath(fsId, subPath)), err)
                && (faultless && CanFallBack(old(tree), fsId, subPath) ==> !err)
    {
      hide Components, MountedPath, TempMountPoint, Join, Split, ExportOk, Grown, Made, MountOptionList, HasDir,
           CanMkdir, NeverClimbs, SameBut, TempPeak, MountFails, Cleared;
      ghost var target := Components(MountedPath(fsId, subPath));
      Unharmed(tree, target);
      var nasTmpPath := TempMountPoint(volumeID);
      ghost var stack := Layers(nasTmpPath);
      ghost var layer := Layer("/" + fsId, MountOptionList(nfsVers, nfsOptions));
      err, f := MountTemp(fsId, MountOptionList(nfsVers, nfsOptions), nasTmpPath);
      if |stack| <= 1 {
        OneCall(stack, layer, f);
      }
      if err {
        return true, f;
      }
      ghost var f0, shown := f, mounts;
      var mkdirFails, unmountFails := MakeUnderTemp(fsId, subPath, volumeID);
      f := f.(mkdir := mkdirFails, unmount := unmountFails);
      SameFaults(stack, layer, f0, f);
      SameThrough(old(mounts), shown, mounts, nasTmpPath, nasTmpPath);
      err := mkdirFails || unmountFails;
    }

    method DoNfsMount(fsId: string, subPath: string, nfsVers: string, mountOptions: string, mountPoint: string, volumeID: string)
      returns (err: bool, ghost fb: Fallback)
      requires ExportOk(tree)
      modifies this`tree, this`mounts, this`most
      ensures ExportOk(tree) && Grown(old(tree), tree)
      ensures SameBut(old(mounts), mounts, mountPoint, TempMountPoint(volumeID))
      ensures mountPoint != TempMountPoint(volumeID) ==>
                Mounting(server, old(mounts), mounts, fsId, MountedPath(fsId, subPath), MountOptionList(nfsVers, mountOptions),
                         mountPoint, TempMountPoint(volumeID), err, fb)
      ensures !err ==> Layers(mountPoint) != [] && Layers(mountPoint)[|Layers(mountPoint)| - 1].source
                         == Shows(server, mountPoint, old(Layers(mountPoint)), MountedPath(fsId, subPath))
      ensures AlreadyMounted(server, mountPoint, old(Layers(mountPoint)), MountedPath(fsId, subPath)) ==> tree == old(tree)
      ensures !err && !AlreadyMounted(server, mountPoint, old(Layers(mountPoint)), MountedPath(fsId, subPath)) ==>
                HasDir(tree, Components(MountedPath(fsId, subPath)))
      ensures fb.Tried? ==> Allowed(fb.faults)
      ensures Calm(checksWork, old(mounts), mountPoint, TempMountPoint(volumeID), MountedPath(fsId, subPath)) && old(most) <= 1 ==>
                most <= 1
      ensures NeverClimbs(Split(subPath)) ==> Made(old(tree), tree, Components(MountedPath(fsId, subPath)), true)
      ensures faultless && Reachable(old(tree), fsId, subPath) ==> !err
    {
      hide Components, MountedPath, Split, ExportOk, Made, Grown, MountOptionList, AlreadyMounted, HasDir,
           NeverClimbs, TempMountPoint, CanMkdir, SameBut, TempAfter;
      var nfsPath := MountedPath(fsId, subPath);
      RootIsThere(tree, nfsPath);
      MadeThere(tree, Components(nfsPath));
      Unharmed(tree, Components(nfsPath));
      ghost var tmp := TempMountPoint(volumeID);
      SameThrough(mounts, mounts, mounts, mountPoint, tmp);
      FreshOne(server, mountPoint, Layers(mountPoint), nfsPath);
      fb := NotTried;
      var fails: bool := *;
      if fails && !faultless {
        return true, fb;
      }
      if AlreadyMounted(server, mountPoint, Layers(mountPoint), nfsPath) {
        return false, fb;
      }
      var layer := Layer(nfsPath, MountOptionList(nfsVers, mountOptions));
      Put(mounts, mountPoint, Layers(mountPoint) + [layer]);
      err := Mount(nfsPath, mountPoint, layer.options);
      if err && nfsPath != "/" {
        ghost var f;
        err, f := CreateNasSubDir(fsId, subPath, nfsVers, mountOptions, volumeID);
        fb := Tried(f);
        SameThrough(old(mounts), mounts, mounts, mountPoint, tmp);
        if mountPoint != tmp {
          SameAt(old(mounts), mounts, tmp, tmp, mountPoint);
        }
        if err {
          return true, fb;
        }
        MadeAnyway(old(tree), tree, Components(nfsPath));
        ghost var before := mounts;
        Put(before, mountPoint, LayersAt(before, mountPoint) + [layer]);
        err := Mount(nfsPath, mountPoint, layer.options);
        SameThrough(old(mounts), before, mounts, mountPoint, tmp);
        if mountPoint != tmp && before != mounts {
          SameAt(before, mounts, mountPoint, mountPoint, tmp);
        }
      } else {
        if mountPoint != tmp && old(mounts) != mounts {
          SameAt(old(mounts), mounts, mountPoint, mountPoint, tmp);
        }
        SameThrough(old(mounts), mounts, mounts, mountPoint, tmp);
      }
    }

    // ----- The controller (controllerserver.go) -----

    /** Makes the volume's directory under the mount and unmounts, on a failed mkdir ignoring the error. */
    method MakeVolumeDir(mountPoint: string, pvName: string) returns (err: bool)
      requires ExportOk(tree) && Rooted(mountPoint) && Layers(mountPoint) != []
      modifies this`tree, this`mounts
      ensures ExportOk(tree) && Grown(old(tree), tree)
      ensures SameBut(old(mounts), mounts, mountPoint, mountPoint)
      ensures var stack := old(Layers(mountPoint));
        Layers(mountPoint) == stack[..|stack| - 1] || (err && !unmountsWork && Layers(mountPoint) == stack)
      ensures NeverClimbs(Split(pvName)) ==>
                var target := old(TopDir(mountPoint)) + Follow([], Split(pvName));
                && Made(old(tree), tree, target, err)
                && (faultless && HasDir(old(tree), old(TopDir(mountPoint))) && CanMkdir(old(tree), target) ==> !err)
    {
      hide Components, ExportOk, Made, Grown, HasDir, Join, SameBut, CanMkdir, Split, NeverClimbs, Follow;
      ghost var stack, target := Layers(mountPoint), TopDir(mountPoint) + Follow([], Split(pvName));
      if NeverClimbs(Split(pvName)) {
        JoinStays(mountPoint, pvName);
      }
      Put(mounts, mountPoint, stack[..|stack| - 1]);
      SameThrough(mounts, mounts, mounts, mountPoint, mountPoint);
      err := MkdirUnder(mountPoint, Join(mountPoint, pvName));
      MadeAnyway(old(tree), tree, target);
      if err {
        var _ := Unmount(mountPoint);
        return true;
      }
      err := Unmount(mountPoint);
    }

    /** What a create does when it may mount: mounts the parent, makes the volume's directory, unmounts. */
    method Provision(fsId: string, subPath: string, nfsVers: string, options: string, mountPoint: string, pvName: string)
      returns (err: bool, ghost fb: Fallback)
      requires ExportOk(tree) && Rooted(mountPoint)
      modifies this`tree, this`mounts, this`most
      ensures ExportOk(tree) && Grown(old(tree), tree)
      ensures SameBut(old(mounts), mounts, mountPoint, TempMountPoint(pvName))
      ensures mountPoint != TempMountPoint(pvName) ==>
                Creating(server, old(mounts), mounts, fsId, MountedPath(fsId, subPath), MountOptionList(nfsVers, options),
                         mountPoint, TempMountPoint(pvName), err, fb)
      ensures NeverClimbs(Split(pvName)) ==>
                var target := Components(Shows(server, mountPoint, old(Layers(mountPoint)), MountedPath(fsId, subPath)))
                              + Follow([], Split(pvName));
                && (!err ==> HasDir(tree, target))
                && (NeverClimbs(Split(subPath)) ==> GrownTo(old(tree), tree, target))
                && (old(Layers(mountPoint)) == [] && Reachable(old(tree), fsId, subPath) && CanMkdir(old(tree), target) ==>
                      faultless ==> !err)
      ensures unmountsWork && mountPoint != TempMountPoint(pvName) ==> |Layers(mountPoint)| <= |old(Layers(mountPoint))|
      ensures fb.Tried? ==> Allowed(fb.faults)
      ensures Calm(checksWork, old(mounts), mountPoint, TempMountPoint(pvName), MountedPath(fsId, subPath)) && old(most) <= 1 ==>
                most <= 1
    {
      hide Components, MountedPath, Split, ExportOk, Made, Grown, MountOptionList, HasDir, GrownTo, TempMountPoint,
           NeverClimbs, SameBut, Under, Reachable, CanMkdir, Follow, AlreadyMounted, Calm, TempLeft;
      ghost var stack, tmp := Layers(mountPoint), TempMountPoint(pvName);
      ghost var shown, rest := Components(Shows(server, mountPoint, stack, MountedPath(fsId, subPath))), Follow([], Split(pvName));
      FreshOne(server, mountPoint, stack, MountedPath(fsId, subPath));
      err, fb := DoNfsMount(fsId, subPath, nfsVers, options, mountPoint, pvName);
      ghost var mounted, grown := mounts, tree;
      Unharmed(grown, shown + rest);
      GrownThrough(old(tree), grown, grown, shown, rest, true);
      if err {
        return true, fb;
      }
      StillCanMkdir(old(tree), grown, shown + rest);
      err := MakeVolumeDir(mountPoint, pvName);
      SameThrough(old(mounts), mounted, mounts, mountPoint, tmp);
      if mountPoint != tmp {
        SameAt(mounted, mounts, mountPoint, mountPoint, tmp);
      }
      if NeverClimbs(Split(pvName)) {
        GrownThrough(old(tree), grown, tree, shown, rest, err);
      }
      GrownTwice(old(tree), grown, tree);
    }

    /** On a mount point used for this parent only, an OK reply leaves nothing mounted, and a failure at most
        the one mount, which the next attempt uses.  Nothing on the export is ever lost or changed. */
    method CreateVolume(pvName: string, params: map<string, string>, capabilities: seq<Capability>)
      returns (code: Code, volumeContext: map<string, string>, ghost fb: Fallback)
      requires ExportOk(tree)
      modifies this`tree, this`mounts, this`most
      ensures ExportOk(tree) && Grown(old(tree), tree)
      ensures SameBut(old(mounts), mounts, CreateMountPoint(pvName), TempMountPoint(pvName))
      ensures code == Panicked <==> BlockAccess in capabilities
      ensures code == InvalidArgument <==> BlockAccess !in capabilities && !Acceptable(params)
      ensures code in {OK, InvalidArgument, Internal, Panicked} && (vci ==> code != Internal)
      ensures code == OK ==> "server" in params && volumeContext == ContextOf(params, pvName)
      ensures vci || code in {InvalidArgument, Panicked} ==>
                tree == old(tree) && mounts == old(mounts) && fb == NotTried && most == old(most)
      ensures !vci && CreateMountPoint(pvName) != TempMountPoint(pvName) && code in {OK, Internal} ==>
                Creating(server, old(mounts), mounts, ParamOr(params, "fsId", ""), ParentPath(params),
                         RequestedOptions(FlagsOf(capabilities)), CreateMountPoint(pvName), TempMountPoint(pvName), code != OK, fb)
      ensures NeverClimbs(Split(pvName)) ==>
                var shown := Shows(server, CreateMountPoint(pvName), old(Layers(CreateMountPoint(pvName))), ParentPath(params));
                var target := Components(shown) + Follow([], Split(pvName));
                && (code == OK && !vci ==> HasDir(tree, target))
                && (NeverClimbs(Split(NormalSubPath(ParamOr(params, "subPath", "")))) ==> GrownTo(old(tree), tree, target))
      ensures unmountsWork && CreateMountPoint(pvName) != TempMountPoint(pvName) ==>
                |Layers(CreateMountPoint(pvName))| <= |old(Layers(CreateMountPoint(pvName)))|
      ensures fb.Tried? ==> Allowed(fb.faults)
      ensures Calm(checksWork, old(mounts), CreateMountPoint(pvName), TempMountPoint(pvName), ParentPath(params)) && old(most) <= 1 ==>
                most <= 1
      ensures faultless && CanCreate(old(tree), params, pvName) && old(Layers(CreateMountPoint(pvName))) == [] ==>
                code != Internal
    {
      hide Components, MountedPath, Split, ExportOk, Grown, MountOptionList, HasDir, GrownTo, CreateMountPoint,
           TempMountPoint, Join, NormalSubPath, Acceptable, NeverClimbs, SameBut, Under, Reachable, CanMkdir, Follow,
           AlreadyMounted, Calm, TempLeft, FlagsOf, RequestedOptions, Flatten, Others, LastVersion, CountVers,
           Creating;
      var mountPoint := CreateMountPoint(pvName);
      NothingGrown(tree);
      SameThrough(mounts, mounts, mounts, mountPoint, TempMountPoint(pvName));
      FreshOne(server, mountPoint, Layers(mountPoint), ParentPath(params));
      fb := NotTried;
      var panicked, nfsOptions := MountFlags(capabilities);
      if panicked {
        return Panicked, map[], fb;
      }
      var nfsVersion, options := ParseMountOptions(nfsOptions);
      MountedAsRequested(nfsOptions, nfsVersion, options);
      nfsVersion := VersionUsed(nfsVersion);
      var parsed := GetNasVolumeArgs(params);
      if parsed.BadArgs? {
        return InvalidArgument, map[], fb;
      }
      var fsId, subPath := parsed.args.fsId, parsed.args.subPath;
      if !vci {
        var err;
        err, fb := Provision(fsId, subPath, nfsVersion, options, mountPoint, pvName);
        if err {
          return Internal, map[], fb;
        }
      }
      volumeContext := map["archiveOnDelete" := parsed.args.archiveOnDelete, "volumeAs" := "subpath",
                           "path" := Join(MountedPath(fsId, subPath), pvName), "server" := parsed.args.server, "fsId" := fsId];
      return OK, volumeContext, fb;
    }

    /** One create of a run. */
    method ServeCreate(r: CreateRequest) returns (code: Code, ghost fb: Fallback)
      requires ExportOk(tree) && !vci && r.Fits(mounts)
      modifies this`tree, this`mounts, this`most
      ensures ExportOk(tree) && Grown(old(tree), tree)
      ensures CreateTable(server, old(mounts), mounts, r, code, fb)
      ensures code == OK ==> r.Made(tree) && LayersAt(mounts, CreateMountPoint(r.pvName)) == []
      ensures fb.Tried? ==> Allowed(fb.faults)
      ensures checksWork && OneEach(old(mounts)) && old(most) <= 1 ==> most <= 1 && OneEach(mounts)
    {
      hide Components, Join, ParentPath, CreateMountPoint, TempMountPoint, ExportOk, SameBut, Acceptable, Grown,
           OneEach, Split, NeverClimbs, CreateRequest.Made, CreateRequest.Fits, Creating, Calm, GrownTo,
           Follow, TempLeft, AlreadyMounted, FlagsOf, RequestedOptions, Shows, FellShort;
      ghost var t := mounts;
      FitsOneEach(checksWork, t, r);
      var context;
      code, context, fb := CreateVolume(r.pvName, r.params, r.capabilities);
      if checksWork && OneEach(t) {
        StillOneEach(server, t, mounts, r, code, fb);
      }
      if code == OK {
        JustMade(server, t, tree, r);
        OkUnmounts(server, t, mounts, r, fb);
      }
    }

    /** Any sequence of creates, whatever fails and is repeated, with one parent directory for each mount
        point.  `tables` are the mount tables between the calls, `fbs` say what each fallback did; `most`
        also counts what is mounted during the calls. */
    method ServeCreates(requests: seq<CreateRequest>)
      returns (codes: seq<Code>, ghost tables: seq<Table>, ghost fbs: seq<Fallback>)
      requires ExportOk(tree) && !vci
      requires forall i | 0 <= i < |requests| :: requests[i].Fits(mounts)
      requires forall i, j | 0 <= i < |requests| && 0 <= j < |requests| :: Consistent(requests[i], requests[j])
      modifies this`tree, this`mounts, this`most
      ensures ExportOk(tree) && Grown(old(tree), tree)
      ensures |codes| == |fbs| == |requests| && |tables| == |requests| + 1 && tables[0] == old(mounts) && tables[|requests|] == mounts
      ensures forall i | 0 <= i < |requests| :: CreateTable(server, tables[i], tables[i + 1], requests[i], codes[i], fbs[i])
      ensures forall i | 0 <= i < |requests| && codes[i] == OK ::
                requests[i].Made(tree) && LayersAt(tables[i + 1], CreateMountPoint(requests[i].pvName)) == []
      ensures forall k, i | 0 <= k < |tables| && 0 <= i < |requests| :: requests[i].Fits(tables[k])
      ensures forall i | 0 <= i < |requests| && fbs[i].Tried? :: Allowed(fbs[i].faults)
      ensures checksWork && OneEach(old(mounts)) && old(most) <= 1 ==>
                most <= 1 && forall k | 0 <= k < |tables| :: OneEach(tables[k])
    {
      hide CreateMountPoint, ExportOk, Grown, OneEach, CreateRequest.Made, CreateRequest.Fits, Consistent, CreateTable, LayersAt;
      codes, tables, fbs := [], [mounts], [];
      NothingGrown(tree);
      while |codes| < |requests|
        invariant |codes| == |fbs| <= |requests| && |tables| == |codes| + 1 && tables[0] == old(mounts) && tables[|codes|] == mounts
        invariant ExportOk(tree) && Grown(old(tree), tree)
        invariant forall i | 0 <= i < |codes| :: CreateTable(server, tables[i], tables[i + 1], requests[i], codes[i], fbs[i])
        invariant forall i | 0 <= i < |codes| && codes[i] == OK ::
                    requests[i].Made(tree) && LayersAt(tables[i + 1], CreateMountPoint(requests[i].pvName)) == []
        invariant forall k, i | 0 <= k < |tables| && 0 <= i < |requests| :: requests[i].Fits(tables[k])
        invariant forall i | 0 <= i < |codes| && fbs[i].Tried? :: Allowed(fbs[i].faults)
        invariant checksWork && OneEach(old(mounts)) && old(most) <= 1 ==>
                    most <= 1 && forall k | 0 <= k < |tables| :: OneEach(tables[k])
      {
        var r := requests[|codes|];
        ghost var t, ex := mounts, tree;
        assert requests[|codes|].Fits(tables[|codes|]);
        var code, fb := ServeCreate(r);
        GrownTwice(old(tree), ex, tree);
        forall i | 0 <= i < |requests| ensures requests[i].Fits(mounts) {
          assert requests[i].Fits(tables[|codes|]) && Consistent(r, requests[i]);
          StillFits(server, t, mounts, r, requests[i], code, fb);
        }
        forall i | 0 <= i < |codes| && codes[i] == OK ensures requests[i].Made(tree) {
          StillMade(ex, tree, requests[i]);
        }
        codes, tables, fbs := codes + [code], tables + [mounts], fbs + [fb];
      }
    }

    // ----- Deleting -----

    /** The delete of one directory entry: mounts the parent, then removes or archives the entry if it
        exists.  Unmounting is deferred and its error ignored. */
    method DeleteSubPath(volumeID: string, target: DeleteTarget, nfsOptions: string, archive: Attribute, stamp: string)
      returns (code: Code, ghost fb: Fallback)
      requires ExportOk(tree) && target.Target? && SlashFree(stamp)
      modifies this`tree, this`mounts, this`most
      ensures ExportOk(tree)
      ensures SameBut(old(mounts), mounts, DeleteMountPoint(volumeID), TempMountPoint(volumeID))
      ensures DeleteMountPoint(volumeID) != TempMountPoint(volumeID) ==>
                && Creating(server, old(mounts), mounts, target.fsId, target.Parent(), MountOptionList("3", nfsOptions),
                         DeleteMountPoint(volumeID), TempMountPoint(volumeID), true, fb)
                && (FellShort(old(LayersAt(mounts, TempMountPoint(volumeID))), fb) ==> code == Internal)
      ensures code in {OK, Internal}
      ensures Plain(target.name) ==>
                DeleteOutcome(old(tree), tree, target, old(ShownBy(volumeID, target)), archive, stamp, code)
      ensures Plain(target.name) && NeverClimbs(Split(target.subPath)) ==>
                var parent := Components(old(ShownBy(volumeID, target)));
                HasDir(old(tree), parent) && parent + ["archived-" + target.name + stamp] !in old(tree) ==>
                  AsAsked(old(tree), tree, parent, target.name, archive, stamp, code == OK)
      ensures !Plain(target.name) ==> code == Internal && (Discards(archive) || Grown(old(tree), tree))
      ensures Plain(target.name) && faultless && Smooth(old(tree), target, stamp) && old(Layers(DeleteMountPoint(volumeID))) == [] ==>
                code == DeleteCode(old(tree), target, archive)
      ensures unmountsWork && DeleteMountPoint(volumeID) != TempMountPoint(volumeID) ==>
                |Layers(DeleteMountPoint(volumeID))| <= |old(Layers(DeleteMountPoint(volumeID)))|
      ensures fb.Tried? ==> Allowed(fb.faults)
    {
      hide Components, MountedPath, Split, ExportOk, Made, Grown, MountOptionList, HasDir, GrownTo, DeleteMountPoint,
           TempMountPoint, Join, NeverClimbs, SameBut, Under, Untouched, DeleteOutcome, Without, Moved, Discards,
           Unreadable, ArchiveName, DeletedBy, Reachable, Smooth, AlreadyMounted, TempLeft, Calm, AsAsked;
      var mountPoint := DeleteMountPoint(volumeID);
      ghost var tmp, path := TempMountPoint(volumeID), ShownBy(volumeID, target);
      ghost var shown := Components(path);
      FreshOne(server, mountPoint, Layers(mountPoint), target.Parent());
      var err;
      err, fb := DoNfsMount(target.fsId, target.subPath, "3", nfsOptions, mountPoint, volumeID);
      ghost var mounted, grown := mounts, tree;
      SmoothMount(old(tree), grown, target, stamp);
      if err {
        AfterMount(old(tree), grown, grown, target, shown, path, archive, stamp, Internal);
        return Internal, fb;
      }
      ghost var stack := Layers(mountPoint);
      Put(mounted, mountPoint, stack[..|stack| - 1]);
      code := DeleteMounted(mountPoint, target.name, archive, stamp);
      if Plain(target.name) {
        AfterMount(old(tree), grown, tree, target, shown, path, archive, stamp, code);
      } else {
        NotLost(old(tree), grown, tree);
      }
      var _ := Unmount(mountPoint);
      SameThrough(old(mounts), mounted, mounts, mountPoint, tmp);
      if mountPoint != tmp && mounted != mounts {
        SameAt(mounted, mounts, mountPoint, mountPoint, tmp);
      }
    }

    /** Between the mount and the deferred unmount. */
    method DeleteMounted(mountPoint: string, name: string, archive: Attribute, stamp: string) returns (code: Code)
      requires ExportOk(tree) && Rooted(mountPoint) && Layers(mountPoint) != []
      modifies this`tree
      ensures ExportOk(tree) && code in {OK, Internal}
      ensures Plain(name) ==> DeletedBy(old(tree), tree, TopDir(mountPoint), name, archive, stamp, code)
      ensures !Plain(name) ==> code == Internal && (!Discards(archive) ==> tree == old(tree))
      ensures Plain(name) && faultless && TopDir(mountPoint) + [ArchiveName(name, stamp)] !in old(tree) ==>
                code == if TopDir(mountPoint) + [name] in old(tree) && Unreadable(archive) then Internal else OK
    {
      hide Components, Join, ExportOk, DeletedBy, Discards, Unreadable, ArchiveName, Under, AsAsked;
      var deletePath := Join(mountPoint, name);
      if Plain(name) {
        EntryShown(mountPoint, name);
        ghost var top := TopDir(mountPoint);
        assert (top + [name])[..|top|] == top;
        code := DeleteEntry(Shown(mountPoint, deletePath), name, archive, stamp);
      } else {
        code := DeleteOutside(archive);
      }
    }

    /** The path that the mount point of a delete shows once the parent is mounted. */
    function ShownBy(volumeID: string, target: DeleteTarget): string
      requires target.Target?
      reads this
    {
      Shows(server, DeleteMountPoint(volumeID), Layers(DeleteMountPoint(volumeID)), target.Parent())
    }

    /** A last component that is no entry name, "." or "..", leads to the mount point itself or above it:
        removing empties what is mounted there before it fails on the mount point, renaming fails. */
    method DeleteOutside(archive: Attribute) returns (code: Code)
      requires ExportOk(tree)
      modifies this`tree
      ensures ExportOk(tree) && code == Internal
      ensures !Discards(archive) ==> tree == old(tree)
      ensures forall p | p in tree :: p in old(tree) && tree[p] == old(tree)[p]
    {
      hide ExportOk;
      if archive.Present? && ParseBool(archive.value) == Bool(false) {
        var kept: set<Dir> := *;
        var part := map p | p in tree && p in kept :: tree[p];
        if ExportOk(part) {
          tree := part;
        }
      }
      return Internal;
    }

    /** Removes or archives one entry, if it is there. */
    method DeleteEntry(vol: Dir, name: string, archive: Attribute, stamp: string) returns (code: Code)
      requires ExportOk(tree) && vol != [] && vol[|vol| - 1] == name
      modifies this`tree
      ensures ExportOk(tree) && code in {OK, Internal}
      ensures DeletedBy(old(tree), tree, vol[..|vol| - 1], name, archive, stamp, code)
      ensures vol[..|vol| - 1] + ["archived-" + name + stamp] !in old(tree) ==>
                AsAsked(old(tree), tree, vol[..|vol| - 1], name, archive, stamp, code == OK)
      ensures faultless && vol[..|vol| - 1] + [ArchiveName(name, stamp)] !in old(tree) ==>
                code == if vol in old(tree) && Unreadable(archive) then Internal else OK
    {
      hide ExportOk, Moved, AsAsked;
      DeletedAsAsked(tree, vol[..|vol| - 1], name, archive, stamp);
      ghost var parent := vol[..|vol| - 1];
      assert parent + [name] == vol;
      UntouchedSame(tree, vol, parent + [ArchiveName(name, stamp)]);
      if vol !in tree {
        return OK;
      }
      if archive.Present? {
        var archiveBool := ParseBool(archive.value);
        if archiveBool.NotABool? {
          return Internal;
        }
        if !archiveBool.value {
          var err := RemoveAll(vol);
          return if err then Internal else OK;
        }
      }
      ArchiveNameDiffers(name, stamp);
      var err := Rename(vol[..|vol| - 1], name, ArchiveName(name, stamp));
      return if err then Internal else OK;
    }

    /** DeleteVolume of the volume that the cluster recorded as `pv`. */
    method DeleteVolume(volumeID: string, pv: Pv, stamp: string) returns (code: Code, ghost fb: Fallback)
      requires ExportOk(tree) && SlashFree(stamp)
      modifies this`tree, this`mounts, this`most
      ensures ExportOk(tree)
      ensures SameBut(old(mounts), mounts, DeleteMountPoint(volumeID), TempMountPoint(volumeID))
      ensures vci || !pv.Deletes() ==> tree == old(tree) && mounts == old(mounts)
      ensures vci ==> code == OK
      ensures !vci && !pv.Deletes() ==>
                code == if !pv.Complete() then FailedPrecondition
                        else if pv.VolumeAs() != "subpath" then OK
                        else if pv.Target().Rejected? then FailedPrecondition
                        else Panicked
      ensures !vci && pv.Deletes() ==>
                && code in {OK, Internal}
                && (DeleteMountPoint(volumeID) != TempMountPoint(volumeID) ==>
                      Creating(server, old(mounts), mounts, pv.Target().fsId, pv.Target().Parent(),
                               MountOptionList("3", Strings.Join(pv.mountOptions, ',')),
                               DeleteMountPoint(volumeID), TempMountPoint(volumeID), true, fb)
                      && (FellShort(old(LayersAt(mounts, TempMountPoint(volumeID))), fb) ==> code == Internal))
                && (Plain(pv.Target().name) ==>
                      DeleteOutcome(old(tree), tree, pv.Target(), old(ShownBy(volumeID, pv.Target())), pv.ArchiveOnDelete(),
                                    stamp, code))
                && (!Plain(pv.Target().name) ==>
                      code == Internal && (Discards(pv.ArchiveOnDelete()) || Grown(old(tree), tree)))
                && (Plain(pv.Target().name) && faultless && Smooth(old(tree), pv.Target(), stamp)
                      && old(Layers(DeleteMountPoint(volumeID))) == [] ==>
                      code == DeleteCode(old(tree), pv.Target(), pv.ArchiveOnDelete()))
      ensures !vci && pv.Deletes() && Plain(pv.Target().name) && NeverClimbs(Split(pv.Target().subPath)) ==>
                var parent, name := Components(old(ShownBy(volumeID, pv.Target()))), pv.Target().name;
                var vol, arch := parent + [name], parent + ["archived-" + name + stamp];
                HasDir(old(tree), parent) && arch !in old(tree) ==>
                  if "archiveOnDelete" !in pv.attributes
                     || pv.attributes["archiveOnDelete"] in {"1", "t", "T", "TRUE", "true", "True"}
                  then code == OK ==> Archived(old(tree), tree, vol, arch)
                  else if pv.attributes["archiveOnDelete"] in {"0", "f", "F", "FALSE", "false", "False"}
                  then code == OK ==> Removed(tree, vol, arch)
                  else vol in old(tree) ==> code == Internal && tree == old(tree)
      ensures unmountsWork && DeleteMountPoint(volumeID) != TempMountPoint(volumeID) ==>
                |Layers(DeleteMountPoint(volumeID))| <= |old(Layers(DeleteMountPoint(volumeID)))|
      ensures fb.Tried? ==> Allowed(fb.faults)
    {
      hide DeleteOutcome, ExportOk, Smooth, DeleteCode, SameBut, Creating, Grown, Discards;
      fb := NotTried;
      SameThrough(mounts, mounts, mounts, DeleteMountPoint(volumeID), TempMountPoint(volumeID));
      if vci {
        return OK, fb;
      }
      if !pv.Pv? {
        return FailedPrecondition, fb;
      }
      var nfsOptions := Strings.Join(pv.mountOptions, ',');
      if "server" !in pv.attributes {
        return FailedPrecondition, fb;
      }
      if "path" !in pv.attributes {
        return FailedPrecondition, fb;
      }
      if pv.storageClass == "" {
        return FailedPrecondition, fb;
      }
      var volumeAs := if "volumeAs" in pv.attributes then pv.attributes["volumeAs"] else "subpath";
      if volumeAs == "subpath" {
        var target := DeleteTargetOf(pv.attributes["path"]);
        if target.Rejected? {
          return FailedPrecondition, fb;
        }
        if target.Panics? {
          return Panicked, fb;
        }
        var archive := if "archiveOnDelete" in pv.attributes then Present(pv.attributes["archiveOnDelete"]) else Absent;
        code, fb := DeleteSubPath(volumeID, target, nfsOptions, archive, stamp);
        return;
      }
      return OK, fb;
    }

    // ----- The node (nodeserver.go) -----

    /** A target that carries a mount is left alone.  A publish that mounts does so with the directory its
        volume path names, exactly one version option, a supported one, and "ro" when read-only. */
    method NodePublishVolume(volumeID: string, targetPath: string, hasCapability: bool, mountFlags: seq<string>,
                             readonly: bool, volumeContext: map<string, string>)
      returns (code: Code, ghost fb: Fallback)
      requires ExportOk(tree)
      modifies this`tree, this`mounts, this`most
      ensures ExportOk(tree) && Grown(old(tree), tree)
      ensures SameBut(old(mounts), mounts, targetPath, TempMountPoint(volumeID))
      ensures code in {OK, InvalidArgument, Internal}
      ensures volumeID == "" || targetPath == "" || !hasCapability ==> code == InvalidArgument
      ensures old(Layers(targetPath)) != [] || code == InvalidArgument ==> tree == old(tree) && mounts == old(mounts)
      ensures targetPath != TempMountPoint(volumeID) && code != OK ==> Layers(targetPath) == old(Layers(targetPath))
      ensures targetPath != TempMountPoint(volumeID) && FellShort(old(LayersAt(mounts, TempMountPoint(volumeID))), fb) ==>
                code == Internal
      ensures code == OK && old(Layers(targetPath)) == [] ==>
                && ParamOr(volumeContext, "path", "") != ""
                && HasDir(tree, Components(PublishedPath(volumeContext["path"], ParamOr(volumeContext, "fsId", "") != "")))
      ensures code == OK && old(Layers(targetPath)) == [] && targetPath != TempMountPoint(volumeID) ==>
                && |Layers(targetPath)| == 1
                && var layer := Layers(targetPath)[0];
                   && layer.source == PublishedPath(volumeContext["path"], ParamOr(volumeContext, "fsId", "") != "")
                   && layer.options == RequestedOptions(if readonly then mountFlags + ["ro"] else mountFlags)
                   && CountVers(layer.options) == 1
                   && (readonly ==> "ro" in layer.options)
      ensures faultless && volumeID != "" && targetPath != "" && hasCapability ==>
                var path := ParamOr(volumeContext, "path", "");
                && (old(Layers(targetPath)) != [] ==> code == OK)
                && (old(Layers(targetPath)) == [] && path == "" ==> code == InvalidArgument)
                && (path != "" ==>
                      HasDir(old(tree), Components(PublishedPath(path, ParamOr(volumeContext, "fsId", "") != ""))) ==> code == OK)
      ensures fb.Tried? ==> Allowed(fb.faults)
    {
      hide Components, MountedPath, Split, ExportOk, Made, Grown, MountOptionList, HasDir, GrownTo, Others,
           LastVersion, Flatten, NeverClimbs, CountVers, RequestedOptions, TempMountPoint, NfsPathDetail, SameBut,
           VersionUsed, TempLeft, Calm, Contains, Join, AlreadyMounted;
      fb := NotTried;
      NothingGrown(tree);
      SameThrough(mounts, mounts, mounts, targetPath, TempMountPoint(volumeID));
      if |volumeID| == 0 || |targetPath| == 0 || !hasCapability {
        return InvalidArgument, fb;
      }
      var fails: bool := *;
      if fails && !faultless {
        return Internal, fb;
      }
      if Layers(targetPath) != [] {
        return OK, fb;
      }
      var mountOptions := mountFlags;
      if readonly {
        mountOptions := mountOptions + ["ro"];
      }
      var nfsVersion, options := ParseMountOptions(mountOptions);
      MountedAsRequested(mountOptions, nfsVersion, options);
      ReadonlyKept(mountFlags);
      nfsVersion := VersionUsed(nfsVersion);
      var nfsPath := if "path" in volumeContext then volumeContext["path"] else "";
      if nfsPath == "" {
        return InvalidArgument, fb;
      }
      if nfsPath != "/" && nfsPath[|nfsPath| - 1] == '/' {
        nfsPath := nfsPath[..|nfsPath| - 1];
      }
      var fsId, subPath := "", nfsPath;
      if "fsId" in volumeContext && volumeContext["fsId"] != "" {
        var detail := NfsPathDetail(nfsPath);
        fsId, subPath := detail.0, detail.1;
      }
      FreshOne(server, targetPath, Layers(targetPath), MountedPath(fsId, subPath));
      var err;
      err, fb := DoNfsMount(fsId, subPath, nfsVersion, options, targetPath, volumeID);
      return if err then Internal else OK, fb;
    }

    /** OK takes one layer off the target, if it has any; a target that is not mounted is no error. */
    method NodeUnpublishVolume(volumeID: string, targetPath: string) returns (code: Code)
      modifies this`mounts
      ensures SameBut(old(mounts), mounts, targetPath, targetPath)
      ensures code in {OK, InvalidArgument, Internal} && (code == InvalidArgument <==> volumeID == "" || targetPath == "")
      ensures var stack := old(Layers(targetPath));
        code == OK ==> Layers(targetPath) == if stack == [] then [] else stack[..|stack| - 1]
      ensures code != OK ==> mounts == old(mounts)
      ensures faultless ==> code != Internal
    {
      ghost var stack := Layers(targetPath);
      SameThrough(mounts, mounts, mounts, targetPath, targetPath);
      if |volumeID| == 0 {
        return InvalidArgument;
      }
      if |targetPath| == 0 {
        return InvalidArgument;
      }
      if stack != [] {
        Put(mounts, targetPath, stack[..|stack| - 1]);
      }
      var err := Unmount(targetPath);
      if err && Layers(targetPath) != [] {
        return Internal;
      }
      return OK;
    }
  }

  // ----- Requests -----

  /** A capability of a create request. */
  datatype Capability = MountAccess(flags: seq<string>) | BlockAccess

  /** The mount flags of all capabilities, in order. */
  function FlagsOf(capabilities: seq<Capability>): seq<string> {
    if capabilities == [] then [] else
      var last := capabilities[|capabilities| - 1];
      FlagsOf(capabilities[..|capabilities| - 1]) + if last.MountAccess? then last.flags else []
  }

  /** Nothing is dropped or reordered. */
  lemma {:induction false} FlagsInOrder(a: seq<Capability>, b: seq<Capability>)
    ensures FlagsOf(a + b) == FlagsOf(a) + FlagsOf(b)
    ensures forall flags :: FlagsOf([MountAccess(flags)]) == flags
  {
    forall flags ensures FlagsOf([MountAccess(flags)]) == flags {
      var one := [MountAccess(flags)];
      assert one[..0] == [] && FlagsOf(one[..0]) == [];
    }
    if b == [] {
      assert a + b == a;
    } else {
      FlagsInOrder(a, b[..|b| - 1]);
      assert (a + b)[..|a + b| - 1] == a + b[..|b| - 1];
    }
  }

  /** The type assertion on a capability without mount access panics. */
  method MountFlags(capabilities: seq<Capability>) returns (panicked: bool, flags: seq<string>)
    ensures panicked <==> BlockAccess in capabilities
    ensures !panicked ==> flags == FlagsOf(capabilities)
  {
    flags := [];
    for i := 0 to |capabilities|
      invariant BlockAccess !in capabilities[..i] && flags == FlagsOf(capabilities[..i])
    {
      assert capabilities[..i + 1][..i] == capabilities[..i];
      match capabilities[i] {
        case BlockAccess =>
          assert capabilities[i] in capabilities;
          return true, [];
        case MountAccess(more) =>
          flags := flags + more;
      }
    }
    assert capabilities[..|capabilities|] == capabilities;
    return false, flags;
  }

  /** What a create leaves mounted: without an error what its mount left, less the last layer. */
  ghost predicate Creating(server: string, t: Table, t': Table, fsId: string, path: string, options: seq<string>,
                           mountPoint: string, tmp: string, err: bool, fb: Fallback)
  {
    var stack, stack' := LayersAt(t, mountPoint), LayersAt(t', mountPoint);
    var mounted := MountedOnto(server, mountPoint, stack, Layer(path, options));
    && LayersAt(t', tmp) == TempLeft(LayersAt(t, tmp), Layer("/" + fsId, options), fb)
    && mounted != []
    && (stack' == mounted[..|mounted| - 1] || (err && (stack' == mounted || stack' == stack)))
    && (FellShort(LayersAt(t, tmp), fb) ==> err && stack' == stack)
    && (AlreadyMounted(server, mountPoint, stack, path) ==> fb.NotTried?)
  }

  lemma GrownThrough(ex: Export, ex1: Export, ex2: Export, parent: Dir, rest: Dir, err: bool)
    requires Grown(ex, ex1) && Grown(ex1, ex2) && Made(ex1, ex2, parent + rest, err)
    ensures Grown(ex, ex2)
    ensures ex1 == ex || Made(ex, ex1, parent, true) ==> GrownTo(ex, ex2, parent + rest)
    ensures !err ==> HasDir(ex2, parent + rest)
  {
    if Made(ex, ex1, parent, true) {
      forall p | p in ex2 && p !in ex ensures Under(p, parent + rest) {
        if p in ex1 {
          assert Under(p, parent);
          assert (parent + rest)[..|parent|] == parent;
        }
      }
    }
  }

  lemma NothingGrown(ex: Export)
    ensures Grown(ex, ex) && forall d :: GrownTo(ex, ex, d)
  {
  }

  lemma GrownTwice(ex: Export, ex1: Export, ex2: Export)
    requires Grown(ex, ex1) && Grown(ex1, ex2)
    ensures Grown(ex, ex2)
  {
  }

  datatype CreateRequest = CreateRequest(pvName: string, params: map<string, string>, capabilities: seq<Capability>) {
    /** The volume's directory is on the export. */
    ghost predicate Made(ex: Export) {
      HasDir(ex, Components(ParentPath(params)) + Follow([], Split(pvName)))
    }

    /** The mount point of this request is free or shows its parent directory. */
    ghost predicate Fits(t: Table) {
      NeverClimbs(Split(pvName)) && (Acceptable(params) ==> Fresh(LayersAt(t, CreateMountPoint(pvName)), ParentPath(params)))
    }
  }

  /** Requests for one mount point name one parent directory. */
  ghost predicate Consistent(a: CreateRequest, b: CreateRequest) {
    Acceptable(a.params) && Acceptable(b.params) && CreateMountPoint(a.pvName) == CreateMountPoint(b.pvName) ==>
      ParentPath(a.params) == ParentPath(b.params)
  }

  ghost predicate OneEach(t: Table) {
    forall m :: |LayersAt(t, m)| <= 1
  }

  /** The effect of a create on the mount table. */
  ghost predicate CreateTable(server: string, t: Table, t': Table, r: CreateRequest, code: Code, fb: Fallback) {
    var mountPoint, tmp := CreateMountPoint(r.pvName), TempMountPoint(r.pvName);
    && SameBut(t, t', mountPoint, tmp)
    && (code in {InvalidArgument, Panicked} ==> t' == t)
    && (mountPoint != tmp && code in {OK, Internal} ==>
          Creating(server, t, t', ParamOr(r.params, "fsId", ""), ParentPath(r.params), RequestedOptions(FlagsOf(r.capabilities)),
                   mountPoint, tmp, code != OK, fb))
    && code in {OK, InvalidArgument, Internal, Panicked} && (code in {OK, Internal} ==> Acceptable(r.params))
  }

  lemma StillFits(server: string, t: Table, t': Table, r: CreateRequest, other: CreateRequest, code: Code, fb: Fallback)
    requires r.Fits(t) && other.Fits(t) && Consistent(r, other) && CreateTable(server, t, t', r, code, fb)
    ensures other.Fits(t')
  {
    hide CreateMountPoint, TempMountPoint, ParentPath, Acceptable, Split, NeverClimbs, AlreadyMounted, TempLeft,
         RequestedOptions, FlagsOf;
    MountPointsApart(r.pvName, r.pvName);
    MountPointsApart(other.pvName, r.pvName);
    if code in {OK, Internal} {
      FreshMount(server, CreateMountPoint(r.pvName), LayersAt(t, CreateMountPoint(r.pvName)),
                 Layer(ParentPath(r.params), RequestedOptions(FlagsOf(r.capabilities))));
    }
  }

  lemma StillOneEach(server: string, t: Table, t': Table, r: CreateRequest, code: Code, fb: Fallback)
    requires r.Fits(t) && OneEach(t) && CreateTable(server, t, t', r, code, fb)
    requires fb.Tried? ==> !fb.faults.check
    ensures OneEach(t')
  {
    hide CreateMountPoint, TempMountPoint, ParentPath, Acceptable, Split, NeverClimbs, AlreadyMounted,
         RequestedOptions, FlagsOf, TempAfter, TempPeak;
    MountPointsApart(r.pvName, r.pvName);
    if code in {OK, Internal} {
      var tmp, layer := TempMountPoint(r.pvName), Layer(ParentPath(r.params), RequestedOptions(FlagsOf(r.capabilities)));
      FreshMount(server, CreateMountPoint(r.pvName), LayersAt(t, CreateMountPoint(r.pvName)), layer);
      if fb.Tried? {
        OneCall(LayersAt(t, tmp), Layer("/" + ParamOr(r.params, "fsId", ""), layer.options), fb.faults);
      }
      forall m ensures |LayersAt(t', m)| <= 1 {
        assert |LayersAt(t, m)| <= 1;
      }
    }
  }

  /** After an OK create its mount point is free.  Its temporary path is free if and only if it was before,
      or the fallback ran, its check worked and there was one mount to clear. */
  lemma OkUnmounts(server: string, t: Table, t': Table, r: CreateRequest, fb: Fallback)
    requires r.Fits(t) && CreateTable(server, t, t', r, OK, fb)
    ensures LayersAt(t', CreateMountPoint(r.pvName)) == []
    ensures var tmp, tmp' := LayersAt(t, TempMountPoint(r.pvName)), LayersAt(t', TempMountPoint(r.pvName));
      tmp' == [] <==> tmp == [] || (fb.Tried? && !fb.faults.check && |tmp| == 1)
  {
    hide CreateMountPoint, TempMountPoint, ParentPath, Acceptable, Split, NeverClimbs, AlreadyMounted, RequestedOptions, FlagsOf,
         SameBut;
    MountPointsApart(r.pvName, r.pvName);
    FreshMount(server, CreateMountPoint(r.pvName), LayersAt(t, CreateMountPoint(r.pvName)),
               Layer(ParentPath(r.params), RequestedOptions(FlagsOf(r.capabilities))));
  }

  /** So an OK create can leave its temporary mount behind: the fallback of a first create could not
      unmount, and the direct mount of the next one works. */
  lemma OkLeavesMountBehind(server: string, r: CreateRequest)
    requires Acceptable(r.params) && NeverClimbs(Split(r.pvName))
    ensures exists t1, t2, fb :: CreateTable(server, map[], t1, r, Internal, fb) && CreateTable(server, t1, t2, r, OK, NotTried)
                                 && |LayersAt(t2, TempMountPoint(r.pvName))| == 1
  {
    hide CreateMountPoint, TempMountPoint, ParentPath, Acceptable, Split, NeverClimbs, AlreadyMounted, RequestedOptions, FlagsOf,
         TempAfter;
    MountPointsApart(r.pvName, r.pvName);
    var mp, tmp := CreateMountPoint(r.pvName), TempMountPoint(r.pvName);
    var layer := Layer("/" + ParamOr(r.params, "fsId", ""), RequestedOptions(FlagsOf(r.capabilities)));
    var left := Faults(false, false, false, false, false, true);
    TwoTempLayers(layer);
    FreshOne(server, mp, [], ParentPath(r.params));
    var t1: Table := map[tmp := [layer]];
    var onto := Layer(ParentPath(r.params), RequestedOptions(FlagsOf(r.capabilities)));
    assert MountedOnto(server, mp, [], onto) == [onto] && [onto][..0] == [];
    assert CreateTable(server, map[], t1, r, Internal, Tried(left));
    assert CreateTable(server, t1, t1, r, OK, NotTried);
  }

  /** So two failed creates put two layers on their temporary path: the first could not unmount, and in
      the second the check failed and the mount succeeded. */
  lemma TwoLayersByCreates(server: string, r: CreateRequest)
    requires Acceptable(r.params) && NeverClimbs(Split(r.pvName))
    ensures exists t1, t2, fb1, fb2 ::
              && CreateTable(server, map[], t1, r, Internal, fb1) && CreateTable(server, t1, t2, r, Internal, fb2)
              && |LayersAt(t2, TempMountPoint(r.pvName))| == 2
  {
    hide CreateMountPoint, TempMountPoint, ParentPath, Acceptable, Split, NeverClimbs, AlreadyMounted,
         RequestedOptions, FlagsOf, TempAfter;
    MountPointsApart(r.pvName, r.pvName);
    var mp, tmp := CreateMountPoint(r.pvName), TempMountPoint(r.pvName);
    var layer := Layer("/" + ParamOr(r.params, "fsId", ""), RequestedOptions(FlagsOf(r.capabilities)));
    var left, blind := Faults(false, false, false, false, false, true), Faults(false, true, false, false, true, false);
    TwoTempLayers(layer);
    FreshOne(server, mp, [], ParentPath(r.params));
    var t1: Table, t2: Table := map[tmp := [layer]], map[tmp := [layer, layer]];
    assert CreateTable(server, map[], t1, r, Internal, Tried(left));
    assert CreateTable(server, t1, t2, r, Internal, Tried(blind));
  }

  lemma FitsOneEach(checksWork: bool, t: Table, r: CreateRequest)
    requires r.Fits(t)
    ensures CreateMountPoint(r.pvName) != TempMountPoint(r.pvName) && NeverClimbs(Split(r.pvName))
    ensures checksWork && OneEach(t) && Acceptable(r.params) ==>
              Calm(checksWork, t, CreateMountPoint(r.pvName), TempMountPoint(r.pvName), ParentPath(r.params))
  {
    hide CreateMountPoint, TempMountPoint, ParentPath, Acceptable, Split, NeverClimbs;
    MountPointsApart(r.pvName, r.pvName);
  }

  lemma JustMade(server: string, t: Table, ex: Export, r: CreateRequest)
    requires r.Fits(t) && Acceptable(r.params)
    requires var mp := CreateMountPoint(r.pvName);
      HasDir(ex, Components(Shows(server, mp, LayersAt(t, mp), ParentPath(r.params))) + Follow([], Split(r.pvName)))
    ensures r.Made(ex)
  {
    FreshMount(server, CreateMountPoint(r.pvName), LayersAt(t, CreateMountPoint(r.pvName)), Layer(ParentPath(r.params), []));
  }

  lemma StillMade(ex: Export, ex': Export, r: CreateRequest)
    requires r.Made(ex) && Grown(ex, ex')
    ensures r.Made(ex')
  {
  }

  // ----- Deletes -----

  /** An entry of a mounted directory, seen locally. */
  lemma EntryShown(mountPoint: string, name: string)
    requires Rooted(mountPoint) && Plain(name)
    ensures var c := Components(Join(mountPoint, name));
      Under(Components(mountPoint), c) && c[|Components(mountPoint)|..] == [name]
  {
    JoinPlain(mountPoint, name);
  }

  /** Without a discard nothing goes missing. */
  lemma NotLost(ex: Export, ex1: Export, ex2: Export)
    ensures Grown(ex, ex1) && ex2 == ex1 ==> Grown(ex, ex2)
  {
  }

  /** What the cluster knows of a volume. */
  datatype Pv = NoPv | NoCsi | Pv(attributes: map<string, string>, storageClass: string, mountOptions: seq<string>) {
    ghost predicate Complete() {
      Pv? && "server" in attributes && "path" in attributes && storageClass != ""
    }

    ghost function VolumeAs(): string
      requires Pv?
    {
      ParamOr(attributes, "volumeAs", "subpath")
    }

    ghost function ArchiveOnDelete(): Attribute
      requires Pv?
    {
      if "archiveOnDelete" in attributes then Present(attributes["archiveOnDelete"]) else Absent
    }

    ghost function Target(): DeleteTarget
      requires Complete()
    {
      DeleteTargetOf(attributes["path"])
    }

    /** The request gets as far as mounting the parent directory. */
    ghost predicate Deletes() {
      Complete() && VolumeAs() == "subpath" && Target().Target?
    }
  }

  /** What CreateVolume records. */
  ghost function ContextOf(params: map<string, string>, pvName: string): map<string, string>
    requires "server" in params
  {
    map["archiveOnDelete" := if "archiveOnDelete" in params then params["archiveOnDelete"] else "true",
        "volumeAs" := "subpath", "path" := Join(ParentPath(params), pvName), "server" := params["server"],
        "fsId" := if "fsId" in params then params["fsId"] else ""]
  }

  /** A volume that the cluster recorded so is mounted by a publish at the path where create made it, and a
      delete gets as far as mounting exactly the parent directory, to archive or remove exactly that entry. */
  lemma CreatedServes(params: map<string, string>, pvName: string, storageClass: string, mountOptions: seq<string>)
    requires Acceptable(params) && Plain(pvName) && storageClass != ""
    ensures var context := ContextOf(params, pvName); var pv := Pv(context, storageClass, mountOptions);
      && context["path"] != ""
      && Components(PublishedPath(context["path"], context["fsId"] != "")) == Components(ParentPath(params)) + [pvName]
      && pv.Deletes() && pv.Target().Parent() == ParentPath(params) && pv.Target().name == pvName
      && pv.ArchiveOnDelete() == Present(if "archiveOnDelete" in params then params["archiveOnDelete"] else "true")
  {
    hide Components, Join, MountedPath, NfsPathDetail, DeleteTargetOf, PublishedPath, NormalSubPath;
    CreatePublishDeleteAgree(ParamOr(params, "fsId", ""), NormalSubPath(ParamOr(params, "subPath", "")), pvName,
                             ParamOr(params, "fsId", "") != "");
  }

  lemma ArchiveNameDiffers(name: string, stamp: string)
    ensures ArchiveName(name, stamp) != name
  {
    assert |ArchiveName(name, stamp)| > |name|;
  }

  lemma UntouchedSame(ex: Export, vol: Dir, arch: Dir)
    ensures Untouched(ex, ex, vol, arch)
  {
  }

  /** What deleting an entry of a mounted directory does. */
  ghost predicate DeletedBy(ex: Export, ex': Export, parent: Dir, name: string, archive: Attribute, stamp: string, code: Code) {
    var vol, arch := parent + [name], parent + [ArchiveName(name, stamp)];
    && Untouched(ex, ex', vol, arch)
    && (code == OK ==> vol !in ex')
    && (vol !in ex ==> ex' == ex)
    && (vol in ex && Unreadable(archive) ==> code == Internal && ex' == ex)
    && (arch !in ex ==> if code == OK then ex' == AfterDelete(ex, parent, name, archive, stamp)
                        else !Discards(archive) ==> ex' == ex)
  }

  /** The parent directory is there, the archived name free and the path does not climb. */
  ghost predicate Smooth(ex: Export, t: DeleteTarget, stamp: string)
    requires t.Target?
  {
    var parent := Components(t.Parent());
    NeverClimbs(Split(t.subPath)) && HasDir(ex, parent) && parent + [ArchiveName(t.name, stamp)] !in ex
  }

  lemma SmoothMount(ex: Export, ex1: Export, t: DeleteTarget, stamp: string)
    requires t.Target?
    ensures Smooth(ex, t, stamp) && Made(ex, ex1, Components(t.Parent()), true) ==> ex1 == ex
    ensures Smooth(ex, t, stamp) ==>
              && Reachable(ex, t.fsId, t.subPath) && NeverClimbs(Split(t.subPath))
              && Components(t.Parent()) + [ArchiveName(t.name, stamp)] !in ex
  {
    hide Components, NeverClimbs, Split;
  }

  /** The reply when nothing fails: only an unreadable archiveOnDelete of an existing volume is an error. */
  ghost function DeleteCode(ex: Export, t: DeleteTarget, archive: Attribute): Code
    requires t.Target?
  {
    if Components(t.Parent()) + [t.name] in ex && Unreadable(archive) then Internal else OK
  }

  /** What a delete does to the export, whatever fails.  Nothing outside the volume and its archived name
      is lost or changed, and OK means the volume's directory is gone.  When the parent directory is
      there and the archived name free, the export ends up exactly as it should, and a failed delete
      loses nothing unless it was to discard the data.  When the parent is missing nothing is lost.
      `shown` is the parent's path unless the mount point already showed another. */
  ghost predicate DeleteOutcome(ex: Export, ex': Export, t: DeleteTarget, shown: string, archive: Attribute, stamp: string,
                                code: Code)
    requires t.Target?
  {
    var parent := Components(shown);
    var vol, arch := parent + [t.name], parent + [ArchiveName(t.name, stamp)];
    && Untouched(ex, ex', vol, arch)
    && (code == OK ==> vol !in ex')
    && (vol in ex && Unreadable(archive) ==> code == Internal)
    && (NeverClimbs(Split(t.subPath)) ==>
          if !HasDir(ex, parent) then Grown(ex, ex')
          else arch !in ex ==>
            if code == OK then ex' == AfterDelete(ex, parent, t.name, archive, stamp)
            else !Discards(archive) ==> ex' == ex)
  }

  lemma DeletedAsAsked(ex: Export, parent: Dir, name: string, archive: Attribute, stamp: string)
    requires ExportOk(ex)
    ensures forall ex', code | DeletedBy(ex, ex', parent, name, archive, stamp, code)
                                && parent + ["archived-" + name + stamp] !in ex ::
              AsAsked(ex, ex', parent, name, archive, stamp, code == OK)
  {
    hide ExportOk, AsAsked, AfterDelete, Untouched;
    forall ex', code | DeletedBy(ex, ex', parent, name, archive, stamp, code) && parent + ["archived-" + name + stamp] !in ex
      ensures AsAsked(ex, ex', parent, name, archive, stamp, code == OK)
    {
      DeletesAsAsked(ex, ex', parent, name, archive, stamp, code == OK);
    }
  }

  /** So with the parent there and the archived name free it does what archiveOnDelete asks for. */
  lemma OutcomeAsAsked(ex: Export, ex': Export, t: DeleteTarget, shown: string, archive: Attribute, stamp: string, code: Code)
    requires t.Target? && ExportOk(ex) && DeleteOutcome(ex, ex', t, shown, archive, stamp, code)
    requires NeverClimbs(Split(t.subPath)) && HasDir(ex, Components(shown))
    requires Components(shown) + [ArchiveName(t.name, stamp)] !in ex
    ensures AsAsked(ex, ex', Components(shown), t.name, archive, stamp, code == OK)
  {
    hide Components, NeverClimbs, Split, ExportOk, AsAsked, AfterDelete;
    DeletesAsAsked(ex, ex', Components(shown), t.name, archive, stamp, code == OK);
  }

  /** A delete of `vol`, archived as `arch` unless it is to be discarded, conserved the export's data. */
  ghost predicate Conserved(ex: Export, ex': Export, vol: Dir, arch: Dir, archive: Attribute, code: Code) {
    && (code == OK ==>
          && Subtree(ex', vol) == map[]
          && (forall p | !Under(vol, p) && !Under(arch, p) :: (p in ex' <==> p in ex) && (p in ex ==> ex'[p] == ex[p]))
          && if Discards(archive) then Subtree(ex', arch) == map[]
             else Subtree(ex', arch) == Subtree(ex, vol) && |ex'| == |ex|)
    && (code != OK && !Discards(archive) ==> ex' == ex)
  }

  lemma ConservedBy(ex: Export, ex': Export, parent: Dir, name: string, archive: Attribute, stamp: string, code: Code)
    requires ExportOk(ex) && parent + [ArchiveName(name, stamp)] !in ex
    requires if code == OK then ex' == AfterDelete(ex, parent, name, archive, stamp) else !Discards(archive) ==> ex' == ex
    ensures Conserved(ex, ex', parent + [name], parent + [ArchiveName(name, stamp)], archive, code)
  {
    hide AfterDelete, ExportOk, Subtree, Discards, ArchiveName;
    if code == OK {
      DeleteKeeps(ex, parent, name, archive, stamp);
    }
  }

  /** Deleting a volume that CreateVolume made, its parent still there and the archived name free: its
      data is lost only by an OK reply, or a failed attempt, that was to discard it; an OK archive keeps
      the same tree under the archived name; everything else on the export stays. */
  lemma DeletedVolumeConserved(ex: Export, ex': Export, fsId: string, subPath: string, pvName: string,
                               archive: Attribute, stamp: string, code: Code)
    requires ExportOk(ex) && SlashFree(fsId) && Plain(pvName)
    requires var t := DeleteTargetOf(VolumePath(fsId, subPath, pvName));
      t.Target? && DeleteOutcome(ex, ex', t, t.Parent(), archive, stamp, code)
    requires HasDir(ex, Components(MountedPath(fsId, subPath)))
    requires Components(MountedPath(fsId, subPath)) + [ArchiveName(pvName, stamp)] !in ex
    ensures Components(VolumePath(fsId, subPath, pvName)) == Components(MountedPath(fsId, subPath)) + [pvName]
    ensures Conserved(ex, ex', Components(VolumePath(fsId, subPath, pvName)),
                      Components(MountedPath(fsId, subPath)) + [ArchiveName(pvName, stamp)], archive, code)
  {
    hide Components, MountedPath, NeverClimbs, Split, ExportOk, AfterDelete, ArchiveName, Untouched, Unreadable, Conserved,
         Discards, Join;
    var parent := Components(MountedPath(fsId, subPath));
    CreatePublishDeleteAgree(fsId, subPath, pvName, true);
    MountedPathClean(fsId, subPath);
    JoinPlain(MountedPath(fsId, subPath), pvName);
    RecordedPathStays(parent, pvName);
    ConservedBy(ex, ex', parent, pvName, archive, stamp, code);
    assert (parent + [pvName])[..|parent|] == parent;
  }

  lemma AfterMount(ex: Export, ex1: Export, ex2: Export, t: DeleteTarget, parent: Dir, shown: string,
                   archive: Attribute, stamp: string, code: Code)
    requires t.Target? && ExportOk(ex) && ExportOk(ex1) && Grown(ex, ex1) && parent == Components(shown)
    requires NeverClimbs(Split(t.subPath)) ==> ex1 == ex || Made(ex, ex1, parent, true)
    requires DeletedBy(ex1, ex2, parent, t.name, archive, stamp, code) || (code == Internal && ex1 == ex2)
    ensures DeleteOutcome(ex, ex2, t, shown, archive, stamp, code)
    ensures NeverClimbs(Split(t.subPath)) && HasDir(ex, parent) && parent + ["archived-" + t.name + stamp] !in ex ==>
              AsAsked(ex, ex2, parent, t.name, archive, stamp, code == OK)
  {
    hide Components, NeverClimbs, Split, ExportOk, Without, Moved, Discards, Subtree, Graft, AsAsked;
    var vol := parent + [t.name];
    if NeverClimbs(Split(t.subPath)) && !HasDir(ex, parent) {
      if vol in ex1 {
        StrayEntry(ex, ex1, parent, t.name);
      }
    }
    if NeverClimbs(Split(t.subPath)) && HasDir(ex, parent) && parent + [ArchiveName(t.name, stamp)] !in ex {
      OutcomeAsAsked(ex, ex2, t, shown, archive, stamp, code);
    }
  }

  lemma StrayEntry(ex: Export, ex1: Export, parent: Dir, name: string)
    requires ExportOk(ex) && GrownTo(ex, ex1, parent) && parent + [name] in ex1
    ensures HasDir(ex, parent)
  {
    assert !Under(parent + [name], parent);
    assert (parent + [name])[..|parent|] == parent;
  }
}
