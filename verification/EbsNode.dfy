/** The node service of pkg/ebs/nodesvc.go over the kernel mount table.  Every system call may fail, and
    between any two of a handler's steps the handlers of other volumes may run. */
module EbsNode {
  import opened InFlightKeys

  // ----- The mount table -----

  /** What a mount shows: a device's file system, the device file itself, or the host's own file system. */
  datatype Fs = Device(path: string) | DeviceFile(path: string) | Host

  datatype Layer = Layer(fs: Fs, readonly: bool)

  type Table = map<string, seq<Layer>>

  function StackAt(t: Table, path: string): seq<Layer> {
    if path in t then t[path] else []
  }

  /** IsNotMountPoint consults the mount table. */
  predicate NotMountPoint(stack: seq<Layer>) {
    stack == []
  }

  /** IsLikelyNotMountPoint compares a path's file system with its parent's, so it misses a mount that
      shows the host's own. */
  predicate LikelyNotMountPoint(stack: seq<Layer>) {
    stack == [] || stack[|stack| - 1].fs == Host
  }

  /** The device GetDeviceNameFromMount reports for a path, "" if none; a bound device file is listed
      under the file system that holds it. */
  function DeviceName(stack: seq<Layer>): string {
    if stack == [] || stack[0].fs.Host? then ""
    else if stack[0].fs.DeviceFile? then "devtmpfs"
    else stack[0].fs.path
  }

  predicate SystemDevice(device: string) {
    device in {"/dev/vda", "/dev/vda1"}
  }

  /** What a path is used for: one volume, as its staging path or as a target. */
  datatype Use = Use(volumeID: string, staging: bool)

  type Plan = map<string, Use>

  /** The device name of each attached volume on this node. */
  type Devices = map<string, string>

  function DeviceOf(device: Devices, volumeID: string): string {
    if volumeID in device then device[volumeID] else ""
  }

  /** A layer that shows the device; its file system unless it is a system disk's, or on a target the
      device file. */
  predicate Shows(layer: Layer, staging: bool, device: string) {
    || (layer.fs == DeviceFile(device) && !staging)
    || (layer.fs == Device(device) && device != "" && !SystemDevice(device))
  }

  /** At most one layer, and it shows the volume the path is used for. */
  predicate StackOk(stack: seq<Layer>, staging: bool, device: string) {
    stack == [] || (|stack| == 1 && Shows(stack[0], staging, device))
  }

  /** No path carries two layers, and each shows the volume the path is used for. */
  predicate TableOk(t: Table, owner: Plan, device: Devices) {
    forall p | p in t && t[p] != [] :: p in owner && StackOk(t[p], owner[p].staging, DeviceOf(device, owner[p].volumeID))
  }

  predicate Owns(owner: Plan, volumeID: string, path: string) {
    path in owner && owner[path].volumeID == volumeID
  }

  predicate OwnsStaging(owner: Plan, volumeID: string, path: string) {
    Owns(owner, volumeID, path) && owner[path].staging
  }

  predicate OwnsTarget(owner: Plan, volumeID: string, path: string) {
    Owns(owner, volumeID, path) && !owner[path].staging
  }

  /** The paths of `volumeID` other than `path` are as they were. */
  predicate OthersSame(t: Table, t': Table, owner: Plan, volumeID: string, path: string) {
    forall p | p in owner && owner[p].volumeID == volumeID && p != path :: StackAt(t', p) == StackAt(t, p)
  }

  lemma OtherSame(t: Table, t': Table, owner: Plan, volumeID: string, path: string, p: string)
    requires OthersSame(t, t', owner, volumeID, path) && Owns(owner, volumeID, p) && p != path
    ensures StackAt(t', p) == StackAt(t, p)
  {
  }

  lemma Onward(t: Table, t1: Table, t2: Table, owner: Plan, volumeID: string, path: string)
    requires OthersSame(t, t1, owner, volumeID, path) && OthersSame(t1, t2, owner, volumeID, path)
    ensures OthersSame(t, t2, owner, volumeID, path)
  {
    forall p | p in owner && owner[p].volumeID == volumeID && p != path ensures StackAt(t2, p) == StackAt(t, p) {
      assert StackAt(t1, p) == StackAt(t, p);
    }
  }

  lemma SelfSame(t: Table, owner: Plan, volumeID: string, path: string)
    ensures OthersSame(t, t, owner, volumeID, path)
  {
  }

  lemma StackFits(t: Table, owner: Plan, device: Devices, p: string)
    requires TableOk(t, owner, device)
    ensures |StackAt(t, p)| <= 1
    ensures StackAt(t, p) != [] ==>
              p in owner && Shows(StackAt(t, p)[0], owner[p].staging, DeviceOf(device, owner[p].volumeID))
  {
  }

  lemma StackFitsIf(t: Table, owner: Plan, device: Devices, p: string)
    ensures TableOk(t, owner, device) ==>
              && |StackAt(t, p)| <= 1
              && (StackAt(t, p) != [] ==>
                    p in owner && Shows(StackAt(t, p)[0], owner[p].staging, DeviceOf(device, owner[p].volumeID)))
    ensures !LikelyNotMountPoint(StackAt(t, p)) ==> StackAt(t, p) != []
  {
  }

  /** Putting a stack on `p` leaves the other paths alone; a good one keeps the table good. */
  lemma PutStack(t: Table, owner: Plan, device: Devices, p: string, stack: seq<Layer>)
    ensures && TableOk(t, owner, device)
            && (stack == [] || (p in owner && StackOk(stack, owner[p].staging, DeviceOf(device, owner[p].volumeID)))) ==>
              TableOk(t[p := stack], owner, device)
    ensures forall start, volumeID | OthersSame(start, t, owner, volumeID, p) ::
              OthersSame(start, t[p := stack], owner, volumeID, p)
    ensures StackAt(t[p := stack], p) == stack
  {
    var t' := t[p := stack];
    forall start, volumeID | OthersSame(start, t, owner, volumeID, p) ensures OthersSame(start, t', owner, volumeID, p) {
      forall q | q in owner && owner[q].volumeID == volumeID && q != p ensures StackAt(t', q) == StackAt(start, q) {
        assert StackAt(t', q) == StackAt(t, q);
      }
    }
  }

  lemma PopStack(t: Table, owner: Plan, device: Devices, p: string)
    ensures TableOk(t, owner, device) ==> TableOk(t[p := Popped(StackAt(t, p))], owner, device)
    ensures forall start, volumeID | OthersSame(start, t, owner, volumeID, p) ::
              OthersSame(start, t[p := Popped(StackAt(t, p))], owner, volumeID, p)
    ensures StackAt(t[p := Popped(StackAt(t, p))], p) == Popped(StackAt(t, p))
  {
    hide TableOk, OthersSame;
    if TableOk(t, owner, device) {
      StackFits(t, owner, device, p);
    }
    PutStack(t, owner, device, p, Popped(StackAt(t, p)));
  }

  /** Mounting the volume's device on its staging path, when another name is found there or nothing. */
  lemma StageStack(t: Table, owner: Plan, device: Devices, volumeID: string, p: string, readonly: bool)
    requires var dev := DeviceOf(device, volumeID);
      OwnsStaging(owner, volumeID, p) && dev != "" && !SystemDevice(dev) && DeviceName(StackAt(t, p)) != dev
    ensures var t' := t[p := StackAt(t, p) + [Layer(Device(DeviceOf(device, volumeID)), readonly)]];
      && (TableOk(t, owner, device) ==> TableOk(t', owner, device))
      && (forall start | OthersSame(start, t, owner, volumeID, p) :: OthersSame(start, t', owner, volumeID, p))
      && StackAt(t', p) == StackAt(t, p) + [Layer(Device(DeviceOf(device, volumeID)), readonly)]
  {
    hide TableOk, OthersSame, SystemDevice;
    var stack := StackAt(t, p) + [Layer(Device(DeviceOf(device, volumeID)), readonly)];
    if TableOk(t, owner, device) {
      StackFits(t, owner, device, p);
      assert StackAt(t, p) == [];
    }
    PutStack(t, owner, device, p, stack);
  }

  /** Binding onto a target that looks unmounted. */
  lemma BindStack(t: Table, owner: Plan, device: Devices, volumeID: string, p: string, fs: Fs, readonly: bool)
    requires OwnsTarget(owner, volumeID, p) && LikelyNotMountPoint(StackAt(t, p))
    requires TableOk(t, owner, device) ==> Shows(Layer(fs, readonly), false, DeviceOf(device, volumeID))
    ensures var t' := t[p := StackAt(t, p) + [Layer(fs, readonly)]];
      && (TableOk(t, owner, device) ==> TableOk(t', owner, device) && StackAt(t, p) == [])
      && (forall start | OthersSame(start, t, owner, volumeID, p) :: OthersSame(start, t', owner, volumeID, p))
      && StackAt(t', p) == StackAt(t, p) + [Layer(fs, readonly)]
  {
    hide TableOk, OthersSame, SystemDevice;
    if TableOk(t, owner, device) {
      StackFits(t, owner, device, p);
    }
    PutStack(t, owner, device, p, StackAt(t, p) + [Layer(fs, readonly)]);
  }

  // ----- What each call does to its own path -----

  datatype Call =
    | Stage(volumeID: string, path: string, block: bool, readonly: bool)
    | Unstage(volumeID: string, path: string)
    | Publish(volumeID: string, path: string, block: bool, source: string, readonly: bool)
    | Unpublish(volumeID: string, path: string)

  /** What staging leaves on the path when it gets as far as the mount. */
  ghost function Staged(stack: seq<Layer>, device: string, readonly: bool): seq<Layer> {
    if DeviceName(stack) == device then stack else stack + [Layer(Device(device), readonly)]
  }

  /** What a publish binds to the target: the device file, or what the staging path shows. */
  ghost function Bound(t: Table, c: Call, device: string): Fs
    requires c.Publish? && (c.block || StackAt(t, c.source) != [])
  {
    if c.block then DeviceFile(device)
    else var stack := StackAt(t, c.source); stack[|stack| - 1].fs
  }

  ghost function Popped(stack: seq<Layer>): seq<Layer> {
    if stack == [] then [] else stack[..|stack| - 1]
  }

  /** What a call does to its path; `device` is the volume's device, "" if it has none.  A failed call may
      have mounted already: staging when the resize after it fails, publishing when the bind mount could
      not be made read-only.  A failed unstage or unpublish may have unmounted already. */
  ghost predicate Effect(t: Table, t': Table, c: Call, ok: bool, device: string) {
    var stack, stack' := StackAt(t, c.path), StackAt(t', c.path);
    match c
    case Stage(_, _, block, readonly) =>
      if block then stack' == stack
      else
        && (stack' == stack || (device != "" && !SystemDevice(device) && stack' == Staged(stack, device, readonly)))
        && (ok ==> device != "" && !SystemDevice(device) && stack' == Staged(stack, device, readonly))
    case Publish(_, _, block, source, readonly) =>
      if !LikelyNotMountPoint(stack) then stack' == stack
      else
        var can := if block then device != "" else StackAt(t, source) != [];
        && (ok ==> can && stack' == stack + [Layer(Bound(t, c, device), readonly)])
        && (!ok ==> stack' == stack || (can && stack' == stack + [Layer(Bound(t, c, device), false)]))
    case _ =>
      if ok then stack' == [] else stack' == stack || stack' == Popped(stack)
  }

  /** A failed call may leave its path as it was. */
  lemma Nothing(t: Table, c: Call, device: string)
    ensures forall t' | StackAt(t', c.path) == StackAt(t, c.path) :: Effect(t, t', c, false, device)
  {
  }

  lemma BlockEffect(t: Table, c: Call, device: string)
    requires c.Stage? && c.block
    ensures Effect(t, t, c, true, device)
  {
  }

  lemma StagedEffect(t: Table, t': Table, c: Call, ok: bool, device: string)
    requires c.Stage? && !c.block && device != "" && !SystemDevice(device)
    requires StackAt(t', c.path) == Staged(StackAt(t, c.path), device, c.readonly)
    ensures Effect(t, t', c, ok, device)
  {
  }

  lemma BoundEffect(t: Table, t': Table, c: Call, ok: bool, device: string)
    requires c.Publish? && LikelyNotMountPoint(StackAt(t, c.path))
    requires if c.block then device != "" else StackAt(t, c.source) != []
    requires var stack := StackAt(t, c.path);
      || StackAt(t', c.path) == stack + [Layer(Bound(t, c, device), ok && c.readonly)]
      || (!ok && StackAt(t', c.path) == stack)
    ensures Effect(t, t', c, ok, device)
  {
  }

  lemma AlreadyBound(t: Table, t': Table, c: Call, device: string)
    requires c.Publish? && !LikelyNotMountPoint(StackAt(t, c.path)) && StackAt(t', c.path) == StackAt(t, c.path)
    ensures Effect(t, t', c, true, device)
  {
  }

  /** What an OK stage with mount access leaves on its path. */
  lemma StagedPlainly(t: Table, t': Table, c: Call, device: string)
    requires c.Stage? && !c.block && Effect(t, t', c, true, device)
    ensures var stack, stack' := StackAt(t, c.path), StackAt(t', c.path);
      && device !in {"", "/dev/vda", "/dev/vda1"}
      && (stack == [] || (stack[0].fs.Device? && stack[0].fs != Device(device)) ==>
            stack' == stack + [Layer(Device(device), c.readonly)])
      && (stack != [] && stack[0].fs == Device(device) ==> stack' == stack)
  {
  }

  /** What a publish leaves on its path. */
  lemma BoundPlainly(t: Table, t': Table, c: Call, ok: bool, device: string)
    requires c.Publish? && Effect(t, t', c, ok, device)
    ensures var stack, stack', source := StackAt(t, c.path), StackAt(t', c.path), StackAt(t, c.source);
      if stack != [] && stack[|stack| - 1].fs != Host then stack' == stack
      else ok ==>
             && (c.block ==> device != "" && stack' == stack + [Layer(DeviceFile(device), c.readonly)])
             && (!c.block ==> source != [] && stack' == stack + [Layer(source[|source| - 1].fs, c.readonly)])
  {
  }

  /** The last mount was taken off. */
  ghost predicate OneOff(stack: seq<Layer>, stack': seq<Layer>) {
    stack != [] && stack' == stack[..|stack| - 1]
  }

  /** What an unstage or unpublish leaves on its path. */
  lemma ReleasedPlainly(t: Table, t': Table, c: Call, ok: bool, device: string)
    requires (c.Unstage? || c.Unpublish?) && Effect(t, t', c, ok, device)
    ensures var stack, stack' := StackAt(t, c.path), StackAt(t', c.path);
      if ok then stack' == [] else stack' == stack || OneOff(stack, stack')
  {
  }

  datatype Code = OK | InvalidArgument | Aborted | NotFound | FailedPrecondition | Internal

  /** A capability of a request: block or mount access, the access mode, and the mount flags. */
  datatype Capability = NoCapability | Capability(block: bool, mode: string, flags: seq<string>) {
    predicate Block() {
      Capability? && block
    }

    /** The mount flags ask for a read-only mount; block access has none. */
    predicate AsksReadonly() {
      Capability? && !block && "ro" in flags
    }
  }

  // ----- The reply when nothing fails -----

  ghost function StageCode(cap: Capability, caps: set<string>, path: string, device: string): Code {
    if cap.NoCapability? || cap.mode !in caps then InvalidArgument
    else if cap.block then OK
    else if path == "" then InvalidArgument
    else if device == "" then NotFound
    else if SystemDevice(device) then FailedPrecondition
    else OK
  }

  ghost function PublishCode(cap: Capability, caps: set<string>, source: string, path: string, device: string,
                       staged: seq<Layer>, stack: seq<Layer>): Code {
    if source == "" || path == "" || cap.NoCapability? || cap.mode !in caps then InvalidArgument
    else if !LikelyNotMountPoint(stack) then OK
    else if cap.block then (if device == "" then NotFound else OK)
    else if staged == [] then Internal
    else OK
  }

  lemma PublishCodeOk(volumeID: string, keys: set<string>, cap: Capability, caps: set<string>, source: string, path: string,
                      device: string, staged: seq<Layer>, stack: seq<Layer>)
    ensures Admitted(volumeID, keys, PublishCode(cap, caps, source, path, device, staged, stack)) == OK <==>
              && volumeID != "" && volumeID !in keys && source != "" && path != "" && cap.Capability? && cap.mode in caps
              && ((stack != [] && stack[|stack| - 1].fs != Host) || (if cap.block then device != "" else staged != []))
  {
  }

  /** For unstage and unpublish: one call takes off one layer, and a path that still carries a mount cannot
      be removed. */
  ghost function ReleaseCode(path: string, stack: seq<Layer>): Code {
    if path == "" then InvalidArgument else if |stack| <= 1 then OK else Internal
  }

  /** `code` unless the volume id is missing or its key is held. */
  ghost function Admitted(volumeID: string, keys: set<string>, code: Code): Code {
    if volumeID == "" then InvalidArgument else if volumeID in keys then Aborted else code
  }

  /** The request was refused exactly because another held the key, and then the key stays; otherwise
      the key is free again. */
  ghost predicate Guarded(keys: set<string>, keys': set<string>, volumeID: string, code: Code) {
    && (code == Aborted <==> volumeID != "" && volumeID in keys)
    && (volumeID in keys <==> volumeID in keys')
    && (code == Aborted ==> keys' == keys)
  }

  class NodeSvc {
    const inFlight: InFlight
    const caps: set<string>
    const owner: Plan
    const faultless: bool      // no system call of its own fails

    /** A volume that is mounted nowhere may come back under another name. */
    var device: Devices
    var mounts: Table
    var paths: set<string>     // the directories and files that exist as mount points

    constructor (caps: set<string>, owner: Plan, device: Devices, faultless: bool)
      ensures Valid() && mounts == map[] && inFlight.Keys() == {} && fresh(inFlight)
    {
      this.caps, this.owner, this.device, this.faultless := caps, owner, device, faultless;
      inFlight := new InFlight();
      mounts, paths := map[], {};
    }

    ghost predicate Valid()
      reads this
    {
      TableOk(mounts, owner, device)
    }

    function Stack(path: string): seq<Layer>
      reads this
    {
      StackAt(mounts, path)
    }

    ghost predicate Holds(volumeID: string)
      reads this, inFlight
    {
      volumeID in inFlight.Keys()
    }

    // ----- System calls: a path is written only by a handler that holds the key of its volume -----

    method Mount(volumeID: string, fs: Fs, target: string, readonly: bool) returns (err: bool)
      requires Holds(volumeID) && Owns(owner, volumeID, target)
      modifies this`mounts
      ensures !err ==> mounts == old(mounts)[target := old(Stack(target)) + [Layer(fs, readonly)]]
      ensures err ==> mounts == old(mounts) || mounts == old(mounts)[target := old(Stack(target)) + [Layer(fs, false)]]
      ensures faultless ==> !err
    {
      var bound: bool, remounted: bool := *, *;
      bound, remounted := bound || faultless, remounted || faultless;
      if !bound {
        return true;
      }
      mounts := mounts[target := Stack(target) + [Layer(fs, readonly && remounted)]];
      return !remounted;
    }

    method FormatAndMount(volumeID: string, devicePath: string, target: string, readonly: bool) returns (err: bool)
      requires Holds(volumeID) && Owns(owner, volumeID, target)
      modifies this`mounts
      ensures err ==> mounts == old(mounts)
      ensures !err ==> mounts == old(mounts)[target := old(Stack(target)) + [Layer(Device(devicePath), readonly)]]
      ensures faultless ==> !err
    {
      var fails: bool := *;
      if fails && !faultless {
        return true;
      }
      mounts := mounts[target := Stack(target) + [Layer(Device(devicePath), readonly)]];
      return false;
    }

    method Unmount(volumeID: string, target: string) returns (err: bool)
      requires Holds(volumeID) && Owns(owner, volumeID, target)
      modifies this`mounts
      ensures err ==> mounts == old(mounts)
      ensures !err ==> old(Stack(target)) != [] && mounts == old(mounts)[target := Popped(old(Stack(target)))]
      ensures faultless && old(Stack(target)) != [] ==> !err
    {
      var fails: bool := *;
      if (fails && !faultless) || Stack(target) == [] {
        return true;
      }
      mounts := mounts[target := Stack(target)[..|Stack(target)| - 1]];
      return false;
    }

    method CreateTargetMountPoint(volumeID: string, path: string) returns (err: bool)
      requires Holds(volumeID) && Owns(owner, volumeID, path)
      modifies this`paths
      ensures paths == if err then old(paths) else old(paths) + {path}
      ensures faultless ==> !err
    {
      var fails: bool := *;
      if fails && !faultless {
        return true;
      }
      paths := paths + {path};
      return false;
    }

    /** A path that carries a mount cannot be removed; one that does not exist is no error. */
    method Remove(volumeID: string, path: string) returns (err: bool)
      requires Holds(volumeID) && Owns(owner, volumeID, path)
      modifies this`paths
      ensures paths == if err then old(paths) else old(paths) - {path}
      ensures !err ==> Stack(path) == []
      ensures faultless && Stack(path) == [] ==> !err
    {
      var fails: bool := *;
      if Stack(path) != [] || (path in paths && fails && !faultless) {
        return true;
      }
      paths := paths - {path};
      return false;
    }

    method DevicePathByVolId(volumeID: string) returns (devicePath: string)
      ensures devicePath in {"", DeviceOf(device, volumeID)}
      ensures faultless ==> devicePath == DeviceOf(device, volumeID)
    {
      var found: bool := *;
      return if found || faultless then DeviceOf(device, volumeID) else "";
    }

    /** The handlers of other volumes run, and volumes that are mounted nowhere are detached and attached:
        neither touches the key, the paths or the device of this one. */
    method Interfere(volumeID: string, path: string, ghost start: Table)
      requires Holds(volumeID) && Owns(owner, volumeID, path)
      requires OthersSame(start, mounts, owner, volumeID, path)
      modifies this`mounts, this`paths, this`device, inFlight
      ensures (old(Valid()) ==> Valid()) && Holds(volumeID) && Stack(path) == old(Stack(path))
      ensures OthersSame(start, mounts, owner, volumeID, path)
      ensures path in paths <==> path in old(paths)
      ensures DeviceOf(device, volumeID) == old(DeviceOf(device, volumeID))
    {
      var t: Table := *;
      var exist: set<string> := *;
      var keys: map<string, bool> := *;
      var names: Devices := *;
      if && (TableOk(mounts, owner, device) ==> TableOk(t, owner, names))
         && OthersSame(mounts, t, owner, volumeID, path) && StackAt(t, path) == Stack(path)
         && volumeID in keys && (path in exist <==> path in paths)
         && DeviceOf(names, volumeID) == DeviceOf(device, volumeID)
      {
        Onward(start, mounts, t, owner, volumeID, path);
        mounts, paths, device, inFlight.inFlight := t, exist, names, keys;
      }
    }

    /** The call had its effect on its own path, and the volume's other paths are as they were. */
    twostate predicate Did(c: Call, ok: bool)
      reads this
    {
      && Effect(old(mounts), mounts, c, ok, old(DeviceOf(device, c.volumeID)))
      && OthersSame(old(mounts), mounts, owner, c.volumeID, c.path)
    }

    // ----- Handlers: the key is inserted first and deleted on return, whatever is returned -----

    method NodeStageVolume(volumeID: string, capability: Capability, targetPath: string, fromSnapshot: bool)
      returns (code: Code)
      requires targetPath != "" ==> OwnsStaging(owner, volumeID, targetPath)
      modifies this`mounts, this`paths, this`device, inFlight
      ensures (old(Valid()) ==> Valid()) && Guarded(old(inFlight.Keys()), inFlight.Keys(), volumeID, code)
      ensures code in {InvalidArgument, Aborted} ==> mounts == old(mounts)
      ensures Did(Stage(volumeID, targetPath, capability.Block(), capability.AsksReadonly()), code == OK)
      ensures code == OK && capability.Capability? && !capability.block ==>
                var stack, dev := old(Stack(targetPath)), old(DeviceOf(device, volumeID));
                && targetPath in paths && dev !in {"", "/dev/vda", "/dev/vda1"}
                && (stack == [] || (stack[0].fs.Device? && stack[0].fs != Device(dev)) ==>
                      Stack(targetPath) == stack + [Layer(Device(dev), "ro" in capability.flags)])
                && (stack != [] && stack[0].fs == Device(dev) ==> Stack(targetPath) == stack)
      ensures faultless ==>
                (code == OK <==> volumeID != "" && volumeID !in old(inFlight.Keys())
                                 && capability.Capability? && capability.mode in caps
                                 && (capability.block || (targetPath != "" && old(DeviceOf(device, volumeID)) !in
                                                            {"", "/dev/vda", "/dev/vda1"})))
      ensures faultless ==> code == Admitted(volumeID, old(inFlight.Keys()),
                                             StageCode(capability, caps, targetPath, old(DeviceOf(device, volumeID))))
    {
      hide TableOk, Effect, OthersSame;
      SelfSame(mounts, owner, volumeID, targetPath);
      Nothing(mounts, Stage(volumeID, targetPath, capability.Block(), capability.AsksReadonly()), DeviceOf(device, volumeID));
      if |volumeID| == 0 {
        return InvalidArgument;
      }
      var ok := inFlight.Insert(volumeID);
      if !ok {
        return Aborted;
      }
      code := StageInserted(volumeID, capability, targetPath, fromSnapshot);
      inFlight.Delete(volumeID);
      if code == OK && !capability.Block() {
        StagedPlainly(old(mounts), mounts, Stage(volumeID, targetPath, false, capability.AsksReadonly()),
                      old(DeviceOf(device, volumeID)));
      }
    }

    method StageInserted(volumeID: string, capability: Capability, targetPath: string, fromSnapshot: bool)
      returns (code: Code)
      requires Holds(volumeID) && (targetPath != "" ==> OwnsStaging(owner, volumeID, targetPath))
      modifies this`mounts, this`paths, this`device, inFlight
      ensures (old(Valid()) ==> Valid()) && Holds(volumeID) && code != Aborted
      ensures code == InvalidArgument ==> mounts == old(mounts)
      ensures code == OK && !capability.Block() ==> targetPath in paths
      ensures Did(Stage(volumeID, targetPath, capability.Block(), capability.AsksReadonly()), code == OK)
      ensures faultless ==> code == StageCode(capability, caps, targetPath, old(DeviceOf(device, volumeID)))
    {
      hide TableOk, OthersSame, Effect, SystemDevice;
      SelfSame(mounts, owner, volumeID, targetPath);
      ghost var call := Stage(volumeID, targetPath, capability.Block(), capability.AsksReadonly());
      ghost var dev := DeviceOf(device, volumeID);
      Nothing(mounts, call, dev);
      if capability.NoCapability? || capability.mode !in caps {
        return InvalidArgument;
      }
      if capability.block {
        BlockEffect(mounts, call, dev);
        return OK;
      }
      if |targetPath| == 0 {
        return InvalidArgument;
      }
      Interfere(volumeID, targetPath, old(mounts));
      var devicePath := DevicePathByVolId(volumeID);
      if devicePath == "" {
        return NotFound;
      }
      var unavailable: bool := *;
      if (unavailable && !faultless) || SystemDevice(devicePath) {
        return FailedPrecondition;
      }
      Interfere(volumeID, targetPath, old(mounts));
      var err := CreateTargetMountPoint(volumeID, targetPath);
      if err {
        return Internal;
      }
      Interfere(volumeID, targetPath, old(mounts));
      var fails: bool := *;
      if fails && !faultless {
        return Internal;
      }
      if DeviceName(Stack(targetPath)) == devicePath {
        StagedEffect(old(mounts), mounts, call, true, dev);
        return OK;
      }
      Interfere(volumeID, targetPath, old(mounts));
      code := MountDevice(volumeID, devicePath, targetPath, capability.AsksReadonly(), fromSnapshot, old(mounts));
    }

    /** The last steps of staging: another device or none is mounted on the path. */
    method MountDevice(volumeID: string, devicePath: string, targetPath: string, readonly: bool, fromSnapshot: bool,
                       ghost start: Table)
      returns (code: Code)
      requires Holds(volumeID) && OwnsStaging(owner, volumeID, targetPath)
      requires devicePath == DeviceOf(device, volumeID) != "" && !SystemDevice(devicePath)
      requires DeviceName(Stack(targetPath)) != devicePath && Stack(targetPath) == StackAt(start, targetPath)
      requires OthersSame(start, mounts, owner, volumeID, targetPath)
      modifies this`mounts, this`paths, this`device, inFlight
      ensures (old(Valid()) ==> Valid()) && Holds(volumeID) && code in {OK, Internal} && (faultless ==> code == OK)
      ensures OthersSame(start, mounts, owner, volumeID, targetPath) && (targetPath in paths <==> targetPath in old(paths))
      ensures Effect(start, mounts, Stage(volumeID, targetPath, false, readonly), code == OK, devicePath)
    {
      hide TableOk, OthersSame, Effect, SystemDevice, DeviceName, Owns;
      ghost var call := Stage(volumeID, targetPath, false, readonly);
      Nothing(start, call, devicePath);
      StageStack(mounts, owner, device, volumeID, targetPath, readonly);
      var err := FormatAndMount(volumeID, devicePath, targetPath, readonly);
      if err {
        return Internal;
      }
      Interfere(volumeID, targetPath, start);
      var resizeFails: bool := *;
      code := if fromSnapshot && resizeFails && !faultless then Internal else OK;
      StagedEffect(start, mounts, call, code == OK, devicePath);
    }

    method NodeUnstageVolume(volumeID: string, targetPath: string) returns (code: Code)
      requires targetPath != "" ==> OwnsStaging(owner, volumeID, targetPath)
      modifies this`mounts, this`paths, this`device, inFlight
      ensures (old(Valid()) ==> Valid()) && Guarded(old(inFlight.Keys()), inFlight.Keys(), volumeID, code)
      ensures code in {InvalidArgument, Aborted} ==> mounts == old(mounts)
      ensures code == OK ==> Stack(targetPath) == [] && targetPath !in paths
      ensures code != OK ==> Stack(targetPath) == old(Stack(targetPath)) || OneOff(old(Stack(targetPath)), Stack(targetPath))
      ensures faultless ==>
                (code == OK <==> volumeID != "" && volumeID !in old(inFlight.Keys()) && targetPath != ""
                                 && |old(Stack(targetPath))| <= 1)
      ensures Did(Unstage(volumeID, targetPath), code == OK)
      ensures faultless ==> code == Admitted(volumeID, old(inFlight.Keys()), ReleaseCode(targetPath, old(Stack(targetPath))))
    {
      hide TableOk, Effect, OthersSame;
      SelfSame(mounts, owner, volumeID, targetPath);
      Nothing(mounts, Unstage(volumeID, targetPath), DeviceOf(device, volumeID));
      if |volumeID| == 0 {
        return InvalidArgument;
      }
      var ok := inFlight.Insert(volumeID);
      if !ok {
        return Aborted;
      }
      code := UnstageInserted(volumeID, targetPath);
      inFlight.Delete(volumeID);
      ReleasedPlainly(old(mounts), mounts, Unstage(volumeID, targetPath), code == OK, old(DeviceOf(device, volumeID)));
    }

    method UnstageInserted(volumeID: string, targetPath: string) returns (code: Code)
      requires Holds(volumeID) && (targetPath != "" ==> OwnsStaging(owner, volumeID, targetPath))
      modifies this`mounts, this`paths, this`device, inFlight
      ensures (old(Valid()) ==> Valid()) && Holds(volumeID) && code != Aborted
      ensures code == InvalidArgument ==> mounts == old(mounts)
      ensures code == OK ==> targetPath !in paths
      ensures Did(Unstage(volumeID, targetPath), code == OK)
      ensures faultless ==> code == ReleaseCode(targetPath, old(Stack(targetPath)))
    {
      hide TableOk, OthersSame, SystemDevice;
      SelfSame(mounts, owner, volumeID, targetPath);
      if |targetPath| == 0 {
        return InvalidArgument;
      }
      Interfere(volumeID, targetPath, old(mounts));
      var fails: bool := *;
      if fails && !faultless {
        return Internal;
      }
      var isNotMnt := NotMountPoint(Stack(targetPath));
      Interfere(volumeID, targetPath, old(mounts));
      if !isNotMnt {
        PopStack(mounts, owner, device, targetPath);
        var err := Unmount(volumeID, targetPath);
        if err {
          return Internal;
        }
      }
      Interfere(volumeID, targetPath, old(mounts));
      var err := Remove(volumeID, targetPath);
      return if err then Internal else OK;
    }

    method NodePublishVolume(volumeID: string, source: string, targetPath: string, capability: Capability, readonly: bool)
      returns (code: Code)
      requires targetPath != "" ==> OwnsTarget(owner, volumeID, targetPath)
      requires source != "" ==> OwnsStaging(owner, volumeID, source)
      modifies this`mounts, this`paths, this`device, inFlight
      ensures (old(Valid()) ==> Valid()) && Guarded(old(inFlight.Keys()), inFlight.Keys(), volumeID, code)
      ensures code in {InvalidArgument, Aborted} ==> mounts == old(mounts)
      ensures code == OK ==> (old(Valid()) ==> |Stack(targetPath)| == 1) && targetPath in paths
      ensures var stack, staged, dev := old(Stack(targetPath)), old(Stack(source)), old(DeviceOf(device, volumeID));
        && (stack != [] && stack[|stack| - 1].fs != Host ==> Stack(targetPath) == stack)
        && (code == OK && (stack == [] || stack[|stack| - 1].fs == Host) ==>
              && capability.Capability?
              && (capability.block ==> dev != "" && Stack(targetPath) == stack + [Layer(DeviceFile(dev), readonly)])
              && (!capability.block ==>
                    staged != [] && Stack(targetPath) ==
                      stack + [Layer(staged[|staged| - 1].fs, readonly || "ro" in capability.flags)]))
        && (faultless ==>
              (code == OK <==>
                 && volumeID != "" && volumeID !in old(inFlight.Keys()) && source != "" && targetPath != ""
                 && capability.Capability? && capability.mode in caps
                 && ((stack != [] && stack[|stack| - 1].fs != Host) || (if capability.block then dev != "" else staged != []))))
      ensures Did(Publish(volumeID, targetPath, capability.Block(), source, readonly || capability.AsksReadonly()), code == OK)
      ensures faultless ==> code == Admitted(volumeID, old(inFlight.Keys()),
                                             PublishCode(capability, caps, source, targetPath, old(DeviceOf(device, volumeID)),
                                                         old(Stack(source)), old(Stack(targetPath))))
    {
      hide TableOk, Effect, OthersSame, PublishCode, Bound;
      PublishCodeOk(volumeID, inFlight.Keys(), capability, caps, source, targetPath, DeviceOf(device, volumeID), Stack(source),
                    Stack(targetPath));
      SelfSame(mounts, owner, volumeID, targetPath);
      Nothing(mounts, Publish(volumeID, targetPath, capability.Block(), source, readonly || capability.AsksReadonly()),
              DeviceOf(device, volumeID));
      if |volumeID| == 0 {
        return InvalidArgument;
      }
      var ok := inFlight.Insert(volumeID);
      if !ok {
        return Aborted;
      }
      code := PublishInserted(volumeID, source, targetPath, capability, readonly);
      inFlight.Delete(volumeID);
      BoundPlainly(old(mounts), mounts,
                   Publish(volumeID, targetPath, capability.Block(), source, readonly || capability.AsksReadonly()),
                   code == OK, old(DeviceOf(device, volumeID)));
    }

    method PublishInserted(volumeID: string, source: string, targetPath: string, capability: Capability, readonly: bool)
      returns (code: Code)
      requires Holds(volumeID) && (targetPath != "" ==> OwnsTarget(owner, volumeID, targetPath))
      requires source != "" ==> OwnsStaging(owner, volumeID, source)
      modifies this`mounts, this`paths, this`device, inFlight
      ensures (old(Valid()) ==> Valid()) && Holds(volumeID) && code != Aborted
      ensures code == InvalidArgument ==> mounts == old(mounts)
      ensures code == OK ==> capability.Capability?
      ensures code == OK ==> (old(Valid()) ==> |Stack(targetPath)| == 1) && targetPath in paths
      ensures Did(Publish(volumeID, targetPath, capability.Block(), source, readonly || capability.AsksReadonly()), code == OK)
      ensures faultless ==> code == PublishCode(capability, caps, source, targetPath, old(DeviceOf(device, volumeID)),
                                                old(Stack(source)), old(Stack(targetPath)))
    {
      hide TableOk, OthersSame, Effect, SystemDevice, Shows, DeviceOf, LikelyNotMountPoint, NotMountPoint, Bound;
      SelfSame(mounts, owner, volumeID, targetPath);
      ghost var call := Publish(volumeID, targetPath, capability.Block(), source, readonly || capability.AsksReadonly());
      ghost var dev := DeviceOf(device, volumeID);
      Nothing(mounts, call, dev);
      if |source| == 0 || |targetPath| == 0 || capability.NoCapability? || capability.mode !in caps {
        return InvalidArgument;
      }
      Interfere(volumeID, targetPath, old(mounts));
      var err := CreateTargetMountPoint(volumeID, targetPath);
      if err {
        return Internal;
      }
      Interfere(volumeID, targetPath, old(mounts));
      var fails: bool := *;
      if fails && !faultless {
        return Internal;
      }
      StackFitsIf(mounts, owner, device, targetPath);
      if !LikelyNotMountPoint(Stack(targetPath)) {
        AlreadyBound(old(mounts), mounts, call, dev);
        return OK;
      }
      Interfere(volumeID, targetPath, old(mounts));
      code := BindSource(volumeID, source, targetPath, capability, readonly || capability.AsksReadonly(), old(mounts));
    }

    /** The second half of a publish: the target looks unmounted. */
    method BindSource(volumeID: string, source: string, targetPath: string, capability: Capability, readonly: bool,
                      ghost start: Table)
      returns (code: Code)
      requires Holds(volumeID) && OwnsTarget(owner, volumeID, targetPath) && OwnsStaging(owner, volumeID, source)
      requires capability.Capability? && Stack(targetPath) == StackAt(start, targetPath) && LikelyNotMountPoint(Stack(targetPath))
      requires OthersSame(start, mounts, owner, volumeID, targetPath) && targetPath in paths
      modifies this`mounts, this`paths, this`device, inFlight
      ensures (old(Valid()) ==> Valid()) && Holds(volumeID) && code !in {Aborted, InvalidArgument}
      ensures OthersSame(start, mounts, owner, volumeID, targetPath)
      ensures code == OK ==> (old(Valid()) ==> |Stack(targetPath)| == 1) && targetPath in paths
      ensures Effect(start, mounts, Publish(volumeID, targetPath, capability.Block(), source, readonly), code == OK,
                     old(DeviceOf(device, volumeID)))
      ensures faultless ==> code == if capability.block then (if old(DeviceOf(device, volumeID)) == "" then NotFound else OK)
                                    else if StackAt(start, source) == [] then Internal else OK
    {
      hide TableOk, OthersSame, Effect, SystemDevice;
      ghost var call := Publish(volumeID, targetPath, capability.Block(), source, readonly);
      ghost var dev := DeviceOf(device, volumeID);
      Nothing(start, call, dev);
      if capability.block {
        var devicePath := DevicePathByVolId(volumeID);
        if devicePath == "" {
          return NotFound;
        }
        code := Bind(volumeID, DeviceFile(devicePath), targetPath, readonly);
      } else {
        if source != targetPath {
          OtherSame(start, mounts, owner, volumeID, targetPath, source);
        }
        var checkFails: bool := *;
        if (checkFails && !faultless) || NotMountPoint(Stack(source)) {
          return Internal;
        }
        Interfere(volumeID, targetPath, start);
        StackFitsIf(mounts, owner, device, source);
        if source != targetPath {
          OtherSame(start, mounts, owner, volumeID, targetPath, source);
        }
        code := Bind(volumeID, Stack(source)[|Stack(source)| - 1].fs, targetPath, readonly);
      }
      BoundEffect(start, mounts, call, code == OK, dev);
    }

    /** The last step of a publish. */
    method Bind(volumeID: string, fs: Fs, target: string, readonly: bool) returns (code: Code)
      requires Holds(volumeID) && OwnsTarget(owner, volumeID, target) && LikelyNotMountPoint(Stack(target))
      requires Valid() ==> Shows(Layer(fs, false), false, DeviceOf(device, volumeID))
      modifies this`mounts
      ensures (old(Valid()) ==> Valid() && old(Stack(target)) == []) && code in {OK, Internal} && (faultless ==> code == OK)
      ensures forall start | OthersSame(start, old(mounts), owner, volumeID, target) ::
                OthersSame(start, mounts, owner, volumeID, target)
      ensures code == OK ==> Stack(target) == old(Stack(target)) + [Layer(fs, readonly)]
      ensures code != OK ==> Stack(target) == old(Stack(target)) || Stack(target) == old(Stack(target)) + [Layer(fs, false)]
    {
      hide TableOk, OthersSame, SystemDevice;
      BindStack(mounts, owner, device, volumeID, target, fs, readonly);
      BindStack(mounts, owner, device, volumeID, target, fs, false);
      var err := Mount(volumeID, fs, target, readonly);
      return if err then Internal else OK;
    }

    method NodeUnpublishVolume(volumeID: string, targetPath: string) returns (code: Code)
      requires targetPath != "" ==> OwnsTarget(owner, volumeID, targetPath)
      modifies this`mounts, this`paths, this`device, inFlight
      ensures (old(Valid()) ==> Valid()) && Guarded(old(inFlight.Keys()), inFlight.Keys(), volumeID, code)
      ensures code in {InvalidArgument, Aborted} ==> mounts == old(mounts)
      ensures code == OK ==> Stack(targetPath) == [] && targetPath !in paths
      ensures code != OK ==> Stack(targetPath) == old(Stack(targetPath)) || OneOff(old(Stack(targetPath)), Stack(targetPath))
      ensures faultless ==>
                (code == OK <==> volumeID != "" && volumeID !in old(inFlight.Keys()) && targetPath != ""
                                 && |old(Stack(targetPath))| <= 1)
      ensures Did(Unpublish(volumeID, targetPath), code == OK)
      ensures faultless ==> code == Admitted(volumeID, old(inFlight.Keys()), ReleaseCode(targetPath, old(Stack(targetPath))))
    {
      hide TableOk, Effect, OthersSame;
      SelfSame(mounts, owner, volumeID, targetPath);
      Nothing(mounts, Unpublish(volumeID, targetPath), DeviceOf(device, volumeID));
      if |volumeID| == 0 {
        return InvalidArgument;
      }
      var ok := inFlight.Insert(volumeID);
      if !ok {
        return Aborted;
      }
      code := UnpublishInserted(volumeID, targetPath);
      inFlight.Delete(volumeID);
      ReleasedPlainly(old(mounts), mounts, Unpublish(volumeID, targetPath), code == OK, old(DeviceOf(device, volumeID)));
    }

    /** CleanupMountPoint: unmount if mounted, check, and remove the path. */
    method UnpublishInserted(volumeID: string, targetPath: string) returns (code: Code)
      requires Holds(volumeID) && (targetPath != "" ==> OwnsTarget(owner, volumeID, targetPath))
      modifies this`mounts, this`paths, this`device, inFlight
      ensures (old(Valid()) ==> Valid()) && Holds(volumeID) && code != Aborted
      ensures code == InvalidArgument ==> mounts == old(mounts)
      ensures code == OK ==> targetPath !in paths
      ensures Did(Unpublish(volumeID, targetPath), code == OK)
      ensures faultless ==> code == ReleaseCode(targetPath, old(Stack(targetPath)))
    {
      hide TableOk, OthersSame, SystemDevice;
      SelfSame(mounts, owner, volumeID, targetPath);
      if |targetPath| == 0 {
        return InvalidArgument;
      }
      Interfere(volumeID, targetPath, old(mounts));
      var fails: bool := *;
      if fails && !faultless {
        return Internal;
      }
      var isNotMnt := NotMountPoint(Stack(targetPath));
      Interfere(volumeID, targetPath, old(mounts));
      if !isNotMnt {
        PopStack(mounts, owner, device, targetPath);
        var err := Unmount(volumeID, targetPath);
        if err {
          return Internal;
        }
        Interfere(volumeID, targetPath, old(mounts));
        var checkFails: bool := *;
        if (checkFails && !faultless) || !LikelyNotMountPoint(Stack(targetPath)) {
          return Internal;
        }
      }
      var err := Remove(volumeID, targetPath);
      return if err then Internal else OK;
    }
  }

  // ----- Whole runs -----

  /** A volume keeps its device name while one of its paths carries a mount. */
  ghost predicate Steady(t: Table, owner: Plan, device: Devices, device': Devices) {
    forall p | p in owner && StackAt(t, p) != [] :: DeviceOf(device', owner[p].volumeID) == DeviceOf(device, owner[p].volumeID)
  }

  /** Calls for one node, one after another; before call `i` the mount table is `states[i]` and the
      devices are `devices[i]`.  Between calls volumes that are mounted nowhere may come and go. */
  ghost predicate History(states: seq<Table>, calls: seq<Call>, oks: seq<bool>, owner: Plan, devices: seq<Devices>) {
    && |states| == |calls| + 1 && |oks| == |calls| && |devices| == |states|
    && forall i | 0 <= i < |calls| ::
         && CallStep(states[i], states[i + 1], calls[i], oks[i], owner, devices[i])
         && Steady(states[i + 1], owner, devices[i], devices[i + 1])
  }

  ghost predicate CallStep(t: Table, t': Table, c: Call, ok: bool, owner: Plan, device: Devices) {
    && (if c.Stage? || c.Unstage? then OwnsStaging(owner, c.volumeID, c.path) else OwnsTarget(owner, c.volumeID, c.path))
    && (c.Publish? ==> OwnsStaging(owner, c.volumeID, c.source))
    && Effect(t, t', c, ok, DeviceOf(device, c.volumeID))
    && forall p | p != c.path :: StackAt(t', p) == StackAt(t, p)
  }

  lemma EffectFits(t: Table, t': Table, c: Call, ok: bool, owner: Plan, device: Devices)
    requires TableOk(t, owner, device) && CallStep(t, t', c, ok, owner, device)
    ensures StackOk(StackAt(t', c.path), owner[c.path].staging, DeviceOf(device, c.volumeID))
  {
    hide TableOk;
    StackFits(t, owner, device, c.path);
    if c.Publish? {
      StackFits(t, owner, device, c.source);
    }
  }

  lemma CallKeeps(t: Table, t': Table, c: Call, ok: bool, owner: Plan, device: Devices)
    requires TableOk(t, owner, device) && CallStep(t, t', c, ok, owner, device)
    ensures TableOk(t', owner, device)
  {
    hide Effect;
    EffectFits(t, t', c, ok, owner, device);
    forall p | p in t' && t'[p] != [] ensures p in owner && StackOk(t'[p], owner[p].staging, DeviceOf(device, owner[p].volumeID)) {
      assert StackAt(t', p) == t'[p];
      if p != c.path {
        StackFits(t, owner, device, p);
      }
    }
  }

  lemma SteadyKeeps(t: Table, owner: Plan, device: Devices, device': Devices)
    requires TableOk(t, owner, device) && Steady(t, owner, device, device')
    ensures TableOk(t, owner, device')
  {
    forall p | p in t && t[p] != [] ensures p in owner && StackOk(t[p], owner[p].staging, DeviceOf(device', owner[p].volumeID)) {
      assert StackAt(t, p) == t[p];
    }
  }

  /** In every state of every history, whatever is repeated and whatever fails, no path carries more
      than one mount, and each mount shows the volume its path is used for. */
  lemma {:induction false} NeverTwoLayers(states: seq<Table>, calls: seq<Call>, oks: seq<bool>, owner: Plan,
                                          devices: seq<Devices>, n: nat)
    requires History(states, calls, oks, owner, devices) && TableOk(states[0], owner, devices[0]) && n <= |calls|
    ensures TableOk(states[n], owner, devices[n])
    ensures forall p :: |StackAt(states[n], p)| <= 1
  {
    hide TableOk, CallStep, Steady;
    if n > 0 {
      NeverTwoLayers(states, calls, oks, owner, devices, n - 1);
      assert CallStep(states[n - 1], states[n], calls[n - 1], oks[n - 1], owner, devices[n - 1]);
      CallKeeps(states[n - 1], states[n], calls[n - 1], oks[n - 1], owner, devices[n - 1]);
      SteadyKeeps(states[n], owner, devices[n - 1], devices[n]);
    }
    forall p ensures |StackAt(states[n], p)| <= 1 {
      StackFits(states[n], owner, devices[n], p);
    }
  }

  /** A volume that is staged, unstaged, attached again under another name and staged again is such a
      history. */
  lemma Reattached(volumeID: string, path: string, a: string, b: string)
    requires a != "" && b != "" && !SystemDevice(a) && !SystemDevice(b)
    ensures var staged, stage := (d: string) => map[path := [Layer(Device(d), false)]], Stage(volumeID, path, false, false);
      History([map[], staged(a), map[], staged(b)], [stage, Unstage(volumeID, path), stage], [true, true, true],
              map[path := Use(volumeID, true)], [map[volumeID := a], map[volumeID := a], map[volumeID := b], map[volumeID := b]])
  {
  }

  /** An OK stage keeps its path at one layer if and only if nothing is mounted there or the volume still
      has the device name it was staged under; a renamed device is mounted on top.  `now` is its name when
      the stage is called, and the effect is the one that NodeStageVolume promises in every state. */
  lemma StagedUnderNewName(t: Table, t': Table, c: Call, owner: Plan, device: Devices, now: string)
    requires TableOk(t, owner, device) && c.Stage? && !c.block && OwnsStaging(owner, c.volumeID, c.path)
    requires Effect(t, t', c, true, now)
    ensures |StackAt(t', c.path)| <= 1 <==> StackAt(t, c.path) == [] || now == DeviceOf(device, c.volumeID)
    ensures |StackAt(t', c.path)| <= 2
  {
    hide TableOk;
    StackFits(t, owner, device, c.path);
  }

  /** It does happen: the device is renamed between two OK stages of one path. */
  lemma RenamedWhileStaged(volumeID: string, path: string, a: string, b: string)
    requires a != b && "" !in [a, b] && !SystemDevice(a) && !SystemDevice(b)
    ensures var owner, stage := map[path := Use(volumeID, true)], Stage(volumeID, path, false, false);
      exists t1, t2 ::
        && CallStep(map[], t1, stage, true, owner, map[volumeID := a])
        && CallStep(t1, t2, stage, true, owner, map[volumeID := b])
        && |StackAt(t2, path)| == 2
  {
    var owner, stage := map[path := Use(volumeID, true)], Stage(volumeID, path, false, false);
    var one, two := Layer(Device(a), false), Layer(Device(b), false);
    var t0: Table, t1: Table, t2: Table := map[], map[path := [one]], map[path := [one, two]];
    assert CallStep(t0, t1, stage, true, owner, map[volumeID := a]);
    assert CallStep(t1, t2, stage, true, owner, map[volumeID := b]);
  }

  /** An OK read-only publish leaves a read-only mount if and only if nothing was mounted before it, or
      what was mounted is read-only already. */
  lemma ReadonlyKept(t: Table, t': Table, c: Call, owner: Plan, device: Devices)
    requires TableOk(t, owner, device) && CallStep(t, t', c, true, owner, device) && c.Publish? && c.readonly
    ensures StackAt(t', c.path) != []
    ensures StackAt(t', c.path)[0].readonly <==> StackAt(t, c.path) == [] || StackAt(t, c.path)[0].readonly
  {
    hide TableOk;
    StackFits(t, owner, device, c.path);
    if !c.block && StackAt(t, c.path) == [] {
      StackFits(t, owner, device, c.source);
    }
  }

  /** So a read-only publish that fails between its two mount steps and is then repeated, with an OK
      reply, leaves the volume writable. */
  lemma ReadonlyLost(volumeID: string, source: string, path: string, dev: string)
    requires source != path && dev != "" && !SystemDevice(dev)
    ensures var owner, device := map[source := Use(volumeID, true), path := Use(volumeID, false)], map[volumeID := dev];
      var c := Publish(volumeID, path, false, source, true);
      var t0 := map[source := [Layer(Device(dev), false)]];
      exists t1, t2 :: CallStep(t0, t1, c, false, owner, device) && CallStep(t1, t2, c, true, owner, device)
                       && StackAt(t2, path) == [Layer(Device(dev), false)]
  {
    var owner, device := map[source := Use(volumeID, true), path := Use(volumeID, false)], map[volumeID := dev];
    var c := Publish(volumeID, path, false, source, true);
    var t0 := map[source := [Layer(Device(dev), false)]];
    var t1 := t0[path := [Layer(Device(dev), false)]];
    assert CallStep(t0, t1, c, false, owner, device);
    assert CallStep(t1, t1, c, true, owner, device);
  }

  /** The last call that could mount on `p`, if any, was followed by an OK unpublish or unstage of it. */
  predicate Released(calls: seq<Call>, oks: seq<bool>, p: string)
    requires |oks| == |calls|
  {
    calls == [] ||
    (var c, n := calls[|calls| - 1], |calls| - 1;
     if c.path != p then Released(calls[..n], oks[..n], p)
     else (c.Unstage? || c.Unpublish?) && (oks[n] || Released(calls[..n], oks[..n], p)))
  }

  /** Unpublishing every target and unstaging returns the mount table to its initial value. */
  lemma {:induction false} ReleasedIsUnmounted(states: seq<Table>, calls: seq<Call>, oks: seq<bool>, owner: Plan,
                                               devices: seq<Devices>, p: string)
    requires History(states, calls, oks, owner, devices)
    requires StackAt(states[0], p) == [] && Released(calls, oks, p)
    ensures StackAt(states[|calls|], p) == []
  {
    hide Steady;
    if calls != [] {
      var n := |calls| - 1;
      assert CallStep(states[n], states[n + 1], calls[n], oks[n], owner, devices[n]);
      if calls[n].path != p || !oks[n] {
        ReleasedIsUnmounted(states[..n + 1], calls[..n], oks[..n], owner, devices[..n + 1], p);
      }
    }
  }
}
