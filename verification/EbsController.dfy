/** The handlers of pkg/ebs/controllersvc.go and the polling calls of pkg/ebs/cloud.go as the
    imperative code they are.  Between any two of a handler's steps `Interfere` lets the other
    handlers and the cloud do anything the protocol allows; each handler is proved to follow the
    protocol step by step, so everything proved about runs holds of it. */
module EbsController {
  import opened EbsTypes
  import opened EbsProtocol
  import opened EbsOutcomes
  import opened InFlightKeys

  // ----- Requests as they arrive -----

  const DEFAULT_CAPACITY: int64 := 20 * GB
  const VOLUME_TYPE_KEY := "type"
  const VOLUME_TYPE_DEFAULT := "ESSD_PL0"
  const ZONE_ID_KEY := "zone"
  const TOPOLOGY_ZONE_KEY := "topology.kubernetes.io/zone"

  /** `requiredBytes` is 0 when the request has no capacity range. */
  datatype CreateVolumeRequest = CreateVolumeRequest(
    name: string,
    capabilities: nat,
    requiredBytes: int64,
    parameters: map<string, string>,
    preferred: seq<map<string, string>>,
    requisite: seq<map<string, string>>,
    source: Source)

  /** The zone of the first topology that names one, preferred topologies first. */
  ghost predicate IsPickedZone(preferred: seq<map<string, string>>, requisite: seq<map<string, string>>, zone: string) {
    var all := preferred + requisite;
    || (zone == "" && forall i | 0 <= i < |all| :: "topology.kubernetes.io/zone" !in all[i])
    || (exists i :: 0 <= i < |all| && "topology.kubernetes.io/zone" in all[i] && zone == all[i]["topology.kubernetes.io/zone"]
                    && forall j | 0 <= j < i :: "topology.kubernetes.io/zone" !in all[j])
  }

  method PickZone(preferred: seq<map<string, string>>, requisite: seq<map<string, string>>) returns (zone: string)
    ensures IsPickedZone(preferred, requisite, zone)
  {
    var all := preferred + requisite;
    for i := 0 to |preferred|
      invariant forall j | 0 <= j < i :: TOPOLOGY_ZONE_KEY !in preferred[j]
    {
      if TOPOLOGY_ZONE_KEY in preferred[i] {
        assert all[i] == preferred[i];
        return preferred[i][TOPOLOGY_ZONE_KEY];
      }
    }
    for i := 0 to |requisite|
      invariant forall j | 0 <= j < |preferred| + i :: TOPOLOGY_ZONE_KEY !in all[j]
    {
      assert all[|preferred| + i] == requisite[i];
      if TOPOLOGY_ZONE_KEY in requisite[i] {
        return requisite[i][TOPOLOGY_ZONE_KEY];
      }
    }
    return "";
  }

  /** At most one zone can be picked, so the choice is deterministic. */
  lemma PickedZoneUnique(preferred: seq<map<string, string>>, requisite: seq<map<string, string>>, a: string, b: string)
    requires IsPickedZone(preferred, requisite, a) && IsPickedZone(preferred, requisite, b)
    ensures a == b
  {
    var all := preferred + requisite;
    if exists i :: 0 <= i < |all| && TOPOLOGY_ZONE_KEY in all[i] {
      var i :| 0 <= i < |all| && TOPOLOGY_ZONE_KEY in all[i] && a == all[i][TOPOLOGY_ZONE_KEY]
               && forall j | 0 <= j < i :: TOPOLOGY_ZONE_KEY !in all[j];
      var k :| 0 <= k < |all| && TOPOLOGY_ZONE_KEY in all[k] && b == all[k][TOPOLOGY_ZONE_KEY]
               && forall j | 0 <= j < k :: TOPOLOGY_ZONE_KEY !in all[j];
    }
  }

  /** The zone parameter wins; an empty one does not count. */
  method GetZoneId(req: CreateVolumeRequest) returns (zone: string)
    ensures ZONE_ID_KEY in req.parameters && req.parameters[ZONE_ID_KEY] != "" ==> zone == req.parameters[ZONE_ID_KEY]
    ensures !(ZONE_ID_KEY in req.parameters && req.parameters[ZONE_ID_KEY] != "") ==>
              IsPickedZone(req.preferred, req.requisite, zone)
  {
    if ZONE_ID_KEY in req.parameters && req.parameters[ZONE_ID_KEY] != "" {
      return req.parameters[ZONE_ID_KEY];
    }
    zone := PickZone(req.preferred, req.requisite);
  }

  function VolumeTypeWithDefault(parameters: map<string, string>): string {
    if VOLUME_TYPE_KEY in parameters then parameters[VOLUME_TYPE_KEY] else VOLUME_TYPE_DEFAULT
  }

  /** `req` is the protocol request that `raw` stands for on a controller in zone `zone`: the type asked for
      or ESSD_PL0, the size asked for or 20 GiB, and the zone asked for, else the first of the topologies,
      else the controller's own. */
  ghost predicate Resolves(raw: CreateVolumeRequest, zone: string, req: Req) {
    && req.CreateVolume?
    && req.name == raw.name && req.hasCaps == (raw.capabilities > 0)
    && req.capacity == (if raw.requiredBytes != 0 then raw.requiredBytes else 21474836480)
    && req.vtype == (if "type" in raw.parameters then raw.parameters["type"] else "ESSD_PL0")
    && req.source == raw.source
    && if "zone" in raw.parameters && raw.parameters["zone"] != "" then req.zone == raw.parameters["zone"]
       else exists z :: IsPickedZone(raw.preferred, raw.requisite, z) && req.zone == if z != "" then z else zone
  }

  /** The cloud lists an available volume with the name, type, zone and size asked for. */
  ghost predicate ListsAsAsked(c: Cloud, id: string, raw: CreateVolumeRequest, zone: string) {
    && id in c.vols && c.vols[id].visible && c.vols[id].status.Available?
    && c.vols[id].name == raw.name && c.vols[id].zone == zone
    && c.vols[id].vtype == (if "type" in raw.parameters then raw.parameters["type"] else "ESSD_PL0")
    && c.vols[id].sizeGB * 0x4000_0000 >= if raw.requiredBytes != 0 then raw.requiredBytes else 21474836480
  }

  lemma ResolvesCreate(raw: CreateVolumeRequest, zone: string, req: Req)
    requires Resolves(raw, zone, req)
    ensures req.CreateVolume?
  {
  }

  lemma ClaimLists(raw: CreateVolumeRequest, zone: string, req: Req, reply: Reply, c: Cloud)
    requires Resolves(raw, zone, req) && Claim(req, reply, c)
    ensures ListsAsAsked(c, reply.id, raw, req.zone)
  {
  }

  /** Every requested access mode is one the driver supports. */
  method IsValidVolumeCapabilities(supported: seq<int>, modes: seq<int>) returns (foundAll: bool)
    ensures foundAll <==> forall m | m in modes :: m in supported
  {
    foundAll := true;
    for i := 0 to |modes|
      invariant foundAll
      invariant forall k | 0 <= k < i :: modes[k] in supported
    {
      var has := false;
      for j := 0 to |supported|
        invariant !has
        invariant forall k | 0 <= k < j :: supported[k] != modes[i]
      {
        if supported[j] == modes[i] {
          has := true;
          break;
        }
      }
      if !has {
        assert modes[i] in modes;
        foundAll := false;
        break;
      }
    }
  }

  /** Some id that is not taken. */
  method NewId(taken: set<string>) returns (id: string)
    ensures id != "" && id !in taken
  {
    id := "v";
    ghost var seen: set<string> := {};
    while id in taken
      invariant id != "" && seen <= taken && forall s | s in seen :: |s| < |id|
      decreases |taken - seen|
    {
      assert id !in seen;
      seen := seen + {id};
      SetShrinks(taken, seen, id);
      id := id + "v";
    }
  }

  lemma SetShrinks(taken: set<string>, seen: set<string>, id: string)
    requires id in taken && id in seen
    ensures |taken - seen| < |taken - (seen - {id})|
  {
    assert taken - (seen - {id}) == (taken - seen) + {id};
  }

  // ----- The controller -----

  class ControllerSvc {
    const inFlight: InFlight
    const maxVolumesPerNode: int
    const supported: seq<int>
    const zone: string
    const faultless: bool    // no call of a handler fails
    const patience: nat      // no context ends before a wait has polled so often

    /** The cloud and the other requests being served: what this handler shares the world with. */
    var cloud: Cloud
    var handlers: map<Tid, Handler>

    /** The run so far. */
    ghost const start: Sys
    ghost var log: seq<Event>

    /** How the steps of the handler being served were answered. */
    ghost var own: seq<How>

    ghost function State(): Sys
      reads this, inFlight
    {
      Sys(maxVolumesPerNode, cloud, inFlight.Keys(), handlers)
    }

    /** The controller is in a state the protocol reaches. */
    ghost predicate Valid()
      reads this, inFlight
    {
      Init(start) && State() == Run(start, log)
    }

    /** The handler is at `pc`, serving `req`. */
    ghost predicate At(t: Tid, req: Req, pc: PC)
      reads this
    {
      t in handlers && handlers[t] == Handler(req, pc)
    }

    ghost predicate MayFail()
      reads this
    {
      faultless ==> |own| >= patience
    }

    /** When no call fails, every step of the handler was answered until it had polled so often. */
    ghost predicate Answered()
      reads this
    {
      faultless ==> forall i | 0 <= i < |own| && !own[i].Go? :: i >= patience
    }

    constructor (maxVolumesPerNode: int, supported: seq<int>, zone: string, faultless: bool, patience: nat, cloud: Cloud)
      requires Init(Sys(maxVolumesPerNode, cloud, {}, map[]))
      ensures Valid() && fresh(inFlight) && log == [] && this.cloud == cloud && handlers == map[]
    {
      this.maxVolumesPerNode := maxVolumesPerNode;
      this.supported := supported;
      this.zone := zone;
      this.faultless, this.patience := faultless, patience;
      this.cloud := cloud;
      this.handlers := map[];
      this.inFlight := new InFlight();
      this.start := Sys(maxVolumesPerNode, cloud, {}, map[]);
      this.log, this.own := [], [];
    }

    // ----- Steps -----

    method Begin(t: Tid, req: Req)
      requires Valid() && t !in handlers
      modifies this`handlers, this`log, this`own
      ensures Valid() && Answered() && log == old(log) + [Arrive(t, req)] && At(t, req, Start) && own == []
    {
      own := [];
      handlers := handlers[t := Handler(req, Start)];
      log := log + [Arrive(t, req)];
      assert log[..|log| - 1] == old(log);
    }

    /** Records the step the handler has just made. */
    method Act(t: Tid, ghost how: How, pc: PC, ghost before: Sys)
      requires Init(start) && before == Run(start, log) && before.handlers == handlers && before.max == maxVolumesPerNode
      requires t in handlers && Move(before, t, how) == (pc, cloud)
      requires inFlight.Keys() == EbsProtocol.Keys(handlers[t], pc, before.keys)
      requires Answered() && (how.Go? || MayFail())
      modifies this`handlers, this`log, this`own
      ensures Answered() && own == old(own) + [how]
      ensures Valid() && log == old(log) + [EbsProtocol.Act(t, how)]
      ensures handlers == old(handlers)[t := old(handlers)[t].(pc := pc)]
    {
      handlers := handlers[t := handlers[t].(pc := pc)];
      log, own := log + [EbsProtocol.Act(t, how)], own + [how];
      assert log[..|log| - 1] == old(log);
    }

    /** Any number of steps of the other handlers and of the cloud. */
    method Interfere(t: Tid)
      requires Valid()
      modifies this`cloud, this`handlers, this`log, inFlight
      ensures Valid() && old(log) <= log
      ensures t in old(handlers) ==> t in handlers && handlers[t] == old(handlers[t])
    {
      var n: nat := *;
      while n > 0
        invariant Valid() && old(log) <= log
        invariant t in old(handlers) ==> t in handlers && handlers[t] == old(handlers[t])
      {
        var e: Event := *;
        if !(e.Act? && e.t == t) && !(e.Arrive? && e.t == t) {
          var s := Step(Sys(maxVolumesPerNode, cloud, inFlight.inFlight.Keys, handlers), e);
          StepFrame(State(), e, t);
          cloud, handlers := s.cloud, s.handlers;
          inFlight.inFlight := map k | k in s.keys :: true;
          log := log + [e];
          assert log[..|log| - 1] + [e] == log;
          RunSnoc(start, log[..|log| - 1], e);
        }
        n := n - 1;
      }
    }

    // ----- Describe calls: they may fail, and see the cloud as it is -----

    method VolumeById(id: string) returns (look: Lookup, how: How)
      ensures how.Go? ==> look == EbsProtocol.VolumeById(cloud, id)
      ensures !how.Go? ==> look == LookupError && !faultless
    {
      var fails: bool := *;
      if fails && !faultless {
        return LookupError, Fault;
      }
      return EbsProtocol.VolumeById(cloud, id), GO;
    }

    /** The driver looks at the first volume of the answer only. */
    method VolumeByName(name: string) returns (look: Lookup, ghost how: How)
      ensures how.Go? ==> if VolumesNamed(cloud, name) == {} then look == NotThere
                          else how.pick in VolumesNamed(cloud, name) && look == Describe(how.pick, cloud.vols[how.pick])
      ensures !how.Go? ==> look == LookupError && !faultless
    {
      var fails: bool := *;
      if fails && !faultless {
        return LookupError, Fault;
      }
      if VolumesNamed(cloud, name) == {} {
        return NotThere, GO;
      }
      var pick :| pick in VolumesNamed(cloud, name);
      return Describe(pick, cloud.vols[pick]), Go(pick, true);
    }

    method GetSnapshotByName(name: string) returns (failed: bool, ids: set<string>, pick: string, ghost how: How)
      ensures (failed <==> !how.Go?) && (failed ==> !faultless)
      ensures !failed ==> ids == SnapsNamed(cloud, name) && how.pick == pick && (ids != {} ==> pick in ids)
    {
      ids, pick := SnapsNamed(cloud, name), "";
      if ids != {} {
        pick :| pick in ids;
      }
      failed := *;
      failed := failed && !faultless;
      how := if failed then Fault else Go(pick, true);
    }

    method NodeById(node: string) returns (failed: bool, volumes: nat, ghost how: How)
      ensures (failed <==> !how.Go?) && (failed ==> !faultless)
      ensures volumes == |OnNode(cloud, node)|
    {
      failed := *;
      failed := failed && !faultless;
      how := if failed then Fault else GO;
      volumes := |OnNode(cloud, node)|;
    }

    // ----- The changing call -----

    method Remote(t: Tid, req: Req, size: int) returns (out: Outcome)
      requires Valid() && Answered() && At(t, req, Submitting(size))
      modifies this`cloud, this`handlers, this`log, this`own
      ensures Valid() && Answered() && old(log) <= log
      ensures match out
        case CallFailed => At(t, req, Finish(req, Err(CallError(req))))
        case CallMissing => (req.DeleteVolume? || req.DeleteSnapshot?) && At(t, req, Finish(req, DONE))
        case CallDone(id) => At(t, req, Next(req, Go(id, true), size))
    {
      hide Step, Run;
      ghost var before := State();
      var how: How := *;
      var newId := NewId(cloud.vols.Keys + cloud.snaps.Keys);
      if (faultless && !how.Go?) || !FreshPick(req, cloud, how) {
        how := Go(newId, true);
      }
      var (pc, c) := Submit(req, t, cloud, how, size);
      out := if !how.Go? then CallFailed else
        match Call(req, t, cloud, how)
        case Refused => CallFailed
        case Missing => CallMissing
        case Accepted(_) => CallDone(how.pick);
      cloud := c;
      Act(t, how, pc, before);
    }

    // ----- Polling (cloud.go) -----

    /** Records one poll of a status or a size. */
    method Polled(t: Tid, ghost req: Req, ghost id: string, ghost how: How, pc: PC)
      requires Valid() && Answered() && At(t, req, Settling(id)) && (how.Go? || MayFail())
      requires pc == PollSettle(req, cloud, id, how)
      modifies this`handlers, this`log, this`own
      ensures Valid() && Answered() && old(log) <= log && At(t, req, pc) && own == old(own) + [how]
    {
      hide Step, Run, PollSettle;
      Act(t, how, pc, State());
    }

    /** Returns nil on the first poll that sees the wanted status, an error on the first that fails
        or finds the volume missing, and an error when the context ends. */
    method WaitVolumeBeStatus(t: Tid, ghost req: Req, id: string, want: string) returns (err: bool, ghost seen: seq<Lookup>)
      requires Valid() && Answered() && At(t, req, Settling(id)) && !req.Expand? && want == Wanted(req)
      modifies this`cloud, this`handlers, this`log, this`own, inFlight
      ensures Valid() && Answered() && old(log) <= log
      ensures At(t, req, Finish(req, if err then Err(CallError(req)) else Success(req, id)))
      ensures forall i | 0 <= i < |seen| - 1 :: StatusVerdict(seen[i], want) == Again
      ensures !err <==> seen != [] && StatusVerdict(seen[|seen| - 1], want) == Match
      ensures err ==> |seen| >= patience || (seen != [] && StatusVerdict(seen[|seen| - 1], want) == Fail)
    {
      hide Step, Run, Move, Keys, Look, Submit, Count, LookSource, PollAppear, Enter, Describe, Init, PollSettle,
           EbsProtocol.VolumeById, Success, CallError;
      var turns: int := *;
      turns := if turns < patience then patience else turns;
      seen := [];
      for i := 0 to turns
        invariant Valid() && Answered() && old(log) <= log && |seen| == i && (faultless ==> |own| >= i) && At(t, req, Settling(id))
        invariant forall i | 0 <= i < |seen| :: StatusVerdict(seen[i], want) == Again
      {
        Interfere(t);
        var look, how := VolumeById(id);
        seen := seen + [look];
        StatusPoll(req, cloud, id, how);
        match look {
          case LookupError =>
            Polled(t, req, id, how, Finish(handlers[t].req, Err(CallError(handlers[t].req))));
            return true, seen;
          case NotThere =>
            if want == "deleted" {
              Polled(t, req, id, how, Finish(handlers[t].req, Success(handlers[t].req, id)));
              return false, seen;
            }
            Polled(t, req, id, how, Finish(handlers[t].req, Err(CallError(handlers[t].req))));
            return true, seen;
          case Found(vol) =>
            if StatusToString(vol.status) == want {
              Polled(t, req, id, how, Finish(handlers[t].req, Success(handlers[t].req, id)));
              return false, seen;
            }
            Polled(t, req, id, how, Settling(id));
        }
      }
      Interfere(t);
      StatusPoll(req, cloud, id, Fault);
      Polled(t, req, id, Fault, Finish(handlers[t].req, Err(CallError(handlers[t].req))));
      return true, seen;
    }

    /** Returns nil on the first poll that finds the volume; failed polls are ignored. */
    method WaitVolumeBeCreated(t: Tid, ghost req: Req, id: string) returns (err: bool, ghost seen: seq<Lookup>)
      requires Valid() && Answered() && At(t, req, Appearing(id))
      modifies this`cloud, this`handlers, this`log, this`own, inFlight
      ensures Valid() && Answered() && old(log) <= log
      ensures At(t, req, if err then Finish(req, Err(CallError(req))) else Settling(id))
      ensures forall i | 0 <= i < |seen| - 1 :: !seen[i].Found?
      ensures !err <==> seen != [] && seen[|seen| - 1].Found?
      ensures err ==> |seen| >= patience
    {
      hide Step, Run, Look, Submit, Count, LookSource, Enter, Describe, Init;
      var turns: int := *;
      turns := if turns < patience then patience else turns;
      seen := [];
      for i := 0 to turns
        invariant Valid() && Answered() && old(log) <= log && |seen| == i && (faultless ==> |own| >= i) && At(t, req, Appearing(id))
        invariant forall i | 0 <= i < |seen| :: !seen[i].Found?
      {
        Interfere(t);
        var look, how := VolumeById(id);
        seen := seen + [look];
        if look.Found? {
          Act(t, how, Settling(id), State());
          return false, seen;
        }
        if how.Go? {
          Act(t, how, Appearing(id), State());
        }
      }
      Interfere(t);
      Act(t, Fault, Finish(handlers[t].req, Err(CallError(handlers[t].req))), State());
      return true, seen;
    }

    /** Returns nil on the first poll that finds the volume at exactly the awaited size and no longer
        extending; failed polls are ignored, a missing volume is a nil dereference. */
    method WaitVolumeBeExtended(t: Tid, ghost req: Req, id: string, sizeBytes: int)
      returns (err: bool, panicked: bool, ghost seen: seq<Lookup>)
      requires Valid() && Answered() && At(t, req, Settling(id)) && req.Expand? && sizeBytes == Wrap64(RoundUpGB(req.bytes) * GB)
      modifies this`cloud, this`handlers, this`log, this`own, inFlight
      ensures Valid() && Answered() && old(log) <= log
      ensures At(t, req, Returned(if panicked then Err(Panicked) else if err then Err(Internal) else Reply(OK, id, req.bytes)))
      ensures forall i | 0 <= i < |seen| - 1 :: !Extended(seen[i], sizeBytes) && !seen[i].NotThere?
      ensures !err <==> seen != [] && Extended(seen[|seen| - 1], sizeBytes)
      ensures panicked <==> seen != [] && seen[|seen| - 1].NotThere?
      ensures err && !panicked ==> |seen| >= patience
    {
      hide Step, Run, Move, Keys, Look, Submit, Count, LookSource, Enter, Describe, Init, PollSettle,
           EbsProtocol.VolumeById, Extended;
      var turns: int := *;
      turns := if turns < patience then patience else turns;
      seen := [];
      for i := 0 to turns
        invariant Valid() && Answered() && old(log) <= log && |seen| == i && (faultless ==> |own| >= i) && At(t, req, Settling(id))
        invariant forall i | 0 <= i < |seen| :: !Extended(seen[i], sizeBytes) && !seen[i].NotThere?
      {
        Interfere(t);
        var look, how := VolumeById(id);
        seen := seen + [look];
        ExtendPoll(req, cloud, id, how);
        assert !Extended(LookupError, sizeBytes) && !Extended(NotThere, sizeBytes) by { NotExtended(sizeBytes); }
        if look.NotThere? {
          Polled(t, req, id, how, Returned(Err(Panicked)));
          return true, true, seen;
        }
        if Extended(look, sizeBytes) {
          Polled(t, req, id, how, Returned(Success(handlers[t].req, id)));
          return false, false, seen;
        }
        if how.Go? {
          Polled(t, req, id, how, Settling(id));
        }
      }
      Interfere(t);
      ExtendPoll(req, cloud, id, Fault);
      Polled(t, req, id, Fault, Finish(handlers[t].req, Err(CallError(handlers[t].req))));
      return true, false, seen;
    }

    // ----- VolcEngin's changing calls (cloud.go) -----

    method CloudCreateVolume(t: Tid, req: Req) returns (id: string, err: bool)
      requires Valid() && Answered() && At(t, req, Submitting(0)) && req.CreateVolume?
      modifies this`cloud, this`handlers, this`log, this`own, inFlight
      ensures Valid() && Answered() && old(log) <= log
      ensures At(t, req, Leaving(if err then Err(Unknown) else Reply(OK, id, req.capacity)))
    {
      hide Step, Run;
      var out := Remote(t, req, 0);
      if !out.CallDone? {
        return "", true;
      }
      id := out.id;
      ghost var polls;
      err, polls := WaitVolumeBeCreated(t, req, id);
      if err {
        return "", true;
      }
      ghost var seen;
      err, seen := WaitVolumeBeStatus(t, req, id, "available");
      return if err then "" else id, err;
    }

    method ExtendVolume(t: Tid, req: Req) returns (err: bool, panicked: bool)
      requires Valid() && Answered() && At(t, req, Submitting(0)) && req.Expand?
      modifies this`cloud, this`handlers, this`log, this`own, inFlight
      ensures Valid() && Answered() && old(log) <= log
      ensures At(t, req, Returned(if panicked then Err(Panicked) else if err then Err(Internal) else Reply(OK, req.id, req.bytes)))
    {
      hide Step, Run;
      var sizeGB := RoundUpGB(req.bytes);
      var out := Remote(t, req, 0);
      if !out.CallDone? {
        return true, false;
      }
      ghost var polls;
      err, panicked, polls := WaitVolumeBeExtended(t, req, req.id, Wrap64(sizeGB * GB));
    }

    /** DeleteVolume, AttachVolume and DetachVolume: the call, then the wait for its status.  Only a
        delete can find its object already missing, which it takes as success. */
    method CallAndWait(t: Tid, req: Req, want: string) returns (err: bool)
      requires Valid() && Answered() && At(t, req, Submitting(0))
      requires (req.DeleteVolume? || req.Publish? || req.Unpublish?) && want == Wanted(req)
      modifies this`cloud, this`handlers, this`log, this`own, inFlight
      ensures Valid() && Answered() && old(log) <= log
      ensures At(t, req, Finish(req, if err then Err(CallError(req)) else DONE))
    {
      hide Step, Run;
      var out := Remote(t, req, 0);
      match out {
        case CallFailed => return true;
        case CallMissing => return false;
        case CallDone(_) =>
          ghost var seen;
          err, seen := WaitVolumeBeStatus(t, req, req.id, want);
      }
    }

    // ----- The handlers (controllersvc.go) -----

    method CreateVolume(t: Tid, raw: CreateVolumeRequest) returns (reply: Reply, ghost req: Req)
      requires Valid() && t !in handlers
      modifies this`cloud, this`handlers, this`log, this`own, inFlight
      ensures Valid() && Answered() && old(log) <= log
      ensures Resolves(raw, zone, req) && At(t, req, Returned(reply))
      ensures reply.code == OK ==> TrueDuring(old(log), req, reply)
      ensures reply.code == OK ==>
                exists k :: |old(log)| <= k <= |log| && ListsAsAsked(Run(start, log[..k]).cloud, reply.id, raw, req.zone)
    {
      hide Step, Run, Look, Submit, Count, LookSource, PollAppear, PollSettle, Claim, Init;
      hide Resolves, ListsAsAsked;
      var r := Resolve(raw);
      req := r;
      ghost var before := log;
      assert r.CreateVolume? by { ResolvesCreate(raw, zone, r); }
      Begin(t, r);
      reply := CreateArrived(t, r);
      OkInLog(start, before, log, t);
      if reply.code == OK {
        ghost var k :| |before| <= k <= |log| && Claim(req, reply, Run(start, log[..k]).cloud);
        ClaimLists(raw, zone, req, reply, Run(start, log[..k]).cloud);
      }
    }

    method CreateArrived(t: Tid, req: Req) returns (reply: Reply)
      requires Valid() && Answered() && At(t, req, Start) && req.CreateVolume?
      modifies this`cloud, this`handlers, this`log, this`own, inFlight
      ensures Valid() && Answered() && old(log) <= log && At(t, req, Returned(reply))
    {
      hide Step, Run, Look, Submit, Count, LookSource, PollAppear, PollSettle, Init;
      Interfere(t);
      if |req.name| == 0 || !req.hasCaps {
        Act(t, GO, Returned(Err(InvalidArgument)), State());
        return Err(InvalidArgument);
      }
      var ok := Acquire(t, req);
      if !ok {
        return Err(Aborted);
      }
      reply := CreateInserted(t, req);
      Interfere(t);
      Release(t, req, reply);
    }

    /** The capacity, zone and type a create request asks for, with their defaults. */
    method Resolve(raw: CreateVolumeRequest) returns (req: Req)
      ensures Resolves(raw, zone, req)
    {
      var zoneId := GetZoneId(raw);
      ghost var picked := zoneId;
      if zoneId == "" {
        zoneId := zone;
      }
      var capacity := if raw.requiredBytes != 0 then raw.requiredBytes else DEFAULT_CAPACITY;
      req := Req.CreateVolume(raw.name, raw.capabilities > 0, capacity, VolumeTypeWithDefault(raw.parameters),
                              zoneId, raw.source);
    }

    /** CreateVolume between the insertion of its key and the deferred deletion. */
    method CreateInserted(t: Tid, req: Req) returns (reply: Reply)
      requires Valid() && Answered() && At(t, req, Looking) && req.CreateVolume?
      modifies this`cloud, this`handlers, this`log, this`own, inFlight
      ensures Valid() && Answered() && old(log) <= log && At(t, req, Leaving(reply))
    {
      hide Step, Run;
      Interfere(t);
      if req.zone == "" {
        Act(t, GO, Leaving(Err(Internal)), State());
        return Err(Internal);
      }
      if req.source.Unsupported? {
        Act(t, GO, Leaving(Err(InvalidArgument)), State());
        return Err(InvalidArgument);
      }
      var look, how := VolumeByName(req.name);
      match look {
        case LookupError =>
          Act(t, how, Leaving(Err(FailedPrecondition)), State());
          return Err(FailedPrecondition);
        case Found(vol) =>
          if !vol.Available() {
            reply := Err(FailedPrecondition);
          } else if vol.volumeType != req.vtype {
            reply := Err(AlreadyExists);
          } else if vol.capacity < req.capacity {
            reply := Err(AlreadyExists);
          } else if vol.zoneId != req.zone {
            reply := Err(AlreadyExists);
          } else {
            reply := Reply(OK, vol.id, vol.capacity);
          }
          Act(t, how, Leaving(reply), State());
        case NotThere =>
          Act(t, how, Submitting(0), State());
          Interfere(t);
          var volID, err := CloudCreateVolume(t, req);
          reply := if err then Err(Unknown) else Reply(OK, volID, req.capacity);
      }
    }

    /** The in-flight Insert of a validated request. */
    method Acquire(t: Tid, req: Req) returns (ok: bool)
      requires Valid() && Answered() && At(t, req, Start) && req.Guarded() && req.Valid()
      modifies this`handlers, this`log, this`own, inFlight
      ensures Valid() && Answered() && old(log) <= log
      ensures At(t, req, if !ok then Returned(Err(Aborted)) else if req.DeleteSnapshot? then Submitting(0) else Looking)
    {
      hide Step, Run;
      ghost var s := State();
      ok := inFlight.Insert(req.Key());
      Act(t, GO, if !ok then Returned(Err(Aborted)) else if req.DeleteSnapshot? then Submitting(0) else Looking, s);
    }

    /** The deferred in-flight Delete, run on every return after a successful Insert. */
    method Release(t: Tid, req: Req, reply: Reply)
      requires Valid() && Answered() && At(t, req, Leaving(reply)) && req.Guarded()
      modifies this`handlers, this`log, this`own, inFlight
      ensures Valid() && Answered() && old(log) <= log && At(t, req, Returned(reply))
    {
      hide Step, Run;
      ghost var s := State();
      inFlight.Delete(req.Key());
      Act(t, GO, Returned(reply), s);
    }

    method DeleteVolume(t: Tid, id: string) returns (reply: Reply)
      requires Valid() && t !in handlers
      modifies this`cloud, this`handlers, this`log, this`own, inFlight
      ensures Valid() && Answered() && old(log) <= log && At(t, Req.DeleteVolume(id), Returned(reply))
      ensures reply.code == OK ==> TrueDuring(old(log), Req.DeleteVolume(id), reply)
    {
      hide Step, Run, Look, Submit, Count, LookSource, PollAppear, PollSettle, Claim, Init;
      var req := Req.DeleteVolume(id);
      ghost var before := log;
      Begin(t, req);
      Interfere(t);
      if |id| == 0 {
        Act(t, GO, Returned(Err(InvalidArgument)), State());
        reply := Err(InvalidArgument);
      } else {
        var ok := Acquire(t, req);
        if !ok {
          reply := Err(Aborted);
        } else {
          reply := DeleteInserted(t, req);
          Interfere(t);
          Release(t, req, reply);
        }
      }
      OkInLog(start, before, log, t);
    }

    method DeleteInserted(t: Tid, req: Req) returns (reply: Reply)
      requires Valid() && Answered() && At(t, req, Looking) && req.DeleteVolume?
      modifies this`cloud, this`handlers, this`log, this`own, inFlight
      ensures Valid() && Answered() && old(log) <= log && At(t, req, Leaving(reply))
    {
      hide Step, Run;
      Interfere(t);
      var look, how := VolumeById(req.id);
      match look {
        case LookupError =>
          Act(t, how, Leaving(Err(FailedPrecondition)), State());
          return Err(FailedPrecondition);
        case NotThere =>
          Act(t, how, Leaving(DONE), State());
          return DONE;
        case Found(_) =>
          Act(t, how, Submitting(0), State());
          Interfere(t);
          var err := CallAndWait(t, req, "deleted");
          return if err then Err(Unknown) else DONE;
      }
    }

    /** `modes` is None when the request has no capability. */
    method ControllerPublishVolume(t: Tid, id: string, node: string, modes: seq<int>) returns (reply: Reply, ghost req: Req)
      requires Valid() && t !in handlers
      modifies this`cloud, this`handlers, this`log, this`own, inFlight
      ensures Valid() && Answered() && old(log) <= log && At(t, req, Returned(reply))
      ensures req == Publish(id, node, modes != [] && forall m | m in modes :: m in supported)
      ensures reply.code == OK ==> TrueDuring(old(log), req, reply)
    {
      hide Step, Run, Look, Submit, Count, LookSource, PollAppear, PollSettle, Claim, Init;
      var capOk := false;
      if modes != [] {
        capOk := IsValidVolumeCapabilities(supported, modes);
      }
      var r := Publish(id, node, capOk);
      req := r;
      ghost var before := log;
      Begin(t, r);
      Interfere(t);
      if |id| == 0 || |node| == 0 || !capOk {
        Act(t, GO, Returned(Err(InvalidArgument)), State());
        reply := Err(InvalidArgument);
      } else {
        Act(t, GO, Looking, State());
        reply := PublishChecked(t, r);
      }
      OkInLog(start, before, log, t);
    }

    method PublishChecked(t: Tid, req: Req) returns (reply: Reply)
      requires Valid() && Answered() && At(t, req, Looking) && req.Publish?
      modifies this`cloud, this`handlers, this`log, this`own, inFlight
      ensures Valid() && Answered() && old(log) <= log && At(t, req, Returned(reply))
    {
      hide Step, Run;
      Interfere(t);
      var look, how := VolumeById(req.id);
      match look {
        case LookupError =>
          Act(t, how, Returned(Err(FailedPrecondition)), State());
          return Err(FailedPrecondition);
        case NotThere =>
          Act(t, how, Returned(Err(NotFound)), State());
          return Err(NotFound);
        case Found(vol) =>
          if vol.Attached() {
            reply := if vol.nodeId == req.node then DONE else Err(FailedPrecondition);
            Act(t, how, Returned(reply), State());
            return;
          }
          if !vol.Available() {
            Act(t, how, Returned(Err(FailedPrecondition)), State());
            return Err(FailedPrecondition);
          }
          Act(t, how, Counting, State());
      }
      reply := PublishAvailable(t, req);
    }

    method PublishAvailable(t: Tid, req: Req) returns (reply: Reply)
      requires Valid() && Answered() && At(t, req, Counting) && req.Publish?
      modifies this`cloud, this`handlers, this`log, this`own, inFlight
      ensures Valid() && Answered() && old(log) <= log && At(t, req, Returned(reply))
    {
      hide Step, Run;
      Interfere(t);
      var failed, volumes, how := NodeById(req.node);
      if failed {
        Act(t, how, Returned(Err(NotFound)), State());
        return Err(NotFound);
      }
      if volumes >= maxVolumesPerNode {
        Act(t, how, Returned(Err(FailedPrecondition)), State());
        return Err(FailedPrecondition);
      }
      Act(t, how, Submitting(0), State());
      Interfere(t);
      var err := CallAndWait(t, req, "attached");
      return if err then Err(Internal) else DONE;
    }

    method ControllerUnpublishVolume(t: Tid, id: string, node: string) returns (reply: Reply)
      requires Valid() && t !in handlers
      modifies this`cloud, this`handlers, this`log, this`own, inFlight
      ensures Valid() && Answered() && old(log) <= log && At(t, Unpublish(id, node), Returned(reply))
      ensures reply.code == OK ==> TrueDuring(old(log), Unpublish(id, node), reply)
    {
      hide Step, Run, Look, Submit, Count, LookSource, PollAppear, PollSettle, Claim, Init;
      var req := Unpublish(id, node);
      ghost var before := log;
      Begin(t, req);
      Interfere(t);
      if |id| == 0 || |node| == 0 {
        Act(t, GO, Returned(Err(InvalidArgument)), State());
        reply := Err(InvalidArgument);
      } else {
        Act(t, GO, Looking, State());
        reply := UnpublishChecked(t, req);
      }
      OkInLog(start, before, log, t);
    }

    method UnpublishChecked(t: Tid, req: Req) returns (reply: Reply)
      requires Valid() && Answered() && At(t, req, Looking) && req.Unpublish?
      modifies this`cloud, this`handlers, this`log, this`own, inFlight
      ensures Valid() && Answered() && old(log) <= log && At(t, req, Returned(reply))
    {
      hide Step, Run;
      Interfere(t);
      var look, how := VolumeById(req.id);
      match look {
        case LookupError =>
          Act(t, how, Returned(Err(FailedPrecondition)), State());
          return Err(FailedPrecondition);
        case NotThere =>
          Act(t, how, Returned(DONE), State());
          return DONE;
        case Found(vol) =>
          if vol.Available() || vol.Deleted() || vol.nodeId != req.node {
            Act(t, how, Returned(DONE), State());
            return DONE;
          }
          if vol.Detaching() {
            Act(t, how, Returned(Err(Internal)), State());
            return Err(Internal);
          }
          Act(t, how, Submitting(0), State());
      }
      Interfere(t);
      var err := CallAndWait(t, req, "available");
      return if err then Err(Internal) else DONE;
    }

    method ControllerExpandVolume(t: Tid, id: string, volSizeBytes: int64) returns (reply: Reply)
      requires Valid() && t !in handlers
      modifies this`cloud, this`handlers, this`log, this`own, inFlight
      ensures Valid() && Answered() && old(log) <= log && At(t, Expand(id, volSizeBytes), Returned(reply))
      ensures reply.code == OK ==> TrueDuring(old(log), Expand(id, volSizeBytes), reply)
    {
      hide Step, Run, Look, Submit, Count, LookSource, PollAppear, PollSettle, Claim, Init;
      var req := Expand(id, volSizeBytes);
      ghost var before := log;
      Begin(t, req);
      Interfere(t);
      if |id| == 0 {
        Act(t, GO, Returned(Err(InvalidArgument)), State());
        reply := Err(InvalidArgument);
      } else {
        Act(t, GO, Looking, State());
        reply := ExpandChecked(t, req);
      }
      OkInLog(start, before, log, t);
    }

    method ExpandChecked(t: Tid, req: Req) returns (reply: Reply)
      requires Valid() && Answered() && At(t, req, Looking) && req.Expand?
      modifies this`cloud, this`handlers, this`log, this`own, inFlight
      ensures Valid() && Answered() && old(log) <= log && At(t, req, Returned(reply))
    {
      hide Step, Run;
      Interfere(t);
      var look, how := VolumeById(req.id);
      if !look.Found? {
        Act(t, how, Returned(Err(Internal)), State());
        return Err(Internal);
      }
      var ebsVolume := look.volume;
      var requestGb := RoundUpGB(req.bytes);
      if (Wrap64(requestGb * GB) == ebsVolume.capacity && ebsVolume.status != StatusExtending)
         || (req.bytes < ebsVolume.capacity && ebsVolume.status != StatusExtending) {
        reply := Reply(OK, req.id, ebsVolume.capacity);
        Act(t, how, Returned(reply), State());
        return;
      }
      Act(t, how, Submitting(0), State());
      Interfere(t);
      var err, panicked := ExtendVolume(t, req);
      return if panicked then Err(Panicked) else if err then Err(Internal) else Reply(OK, req.id, req.bytes);
    }

    method CreateSnapshot(t: Tid, name: string, volumeID: string) returns (reply: Reply)
      requires Valid() && t !in handlers
      modifies this`cloud, this`handlers, this`log, this`own, inFlight
      ensures Valid() && Answered() && old(log) <= log && At(t, Req.CreateSnapshot(name, volumeID), Returned(reply))
      ensures reply.code == OK ==> TrueDuring(old(log), Req.CreateSnapshot(name, volumeID), reply)
    {
      hide Step, Run, Look, Submit, Count, LookSource, PollAppear, PollSettle, Claim, Init;
      var req := Req.CreateSnapshot(name, volumeID);
      ghost var before := log;
      Begin(t, req);
      Interfere(t);
      if |name| == 0 || |volumeID| == 0 {
        Act(t, GO, Returned(Err(InvalidArgument)), State());
        reply := Err(InvalidArgument);
      } else {
        var ok := Acquire(t, req);
        if !ok {
          reply := Err(Aborted);
        } else {
          reply := SnapshotInserted(t, req);
          Interfere(t);
          Release(t, req, reply);
        }
      }
      OkInLog(start, before, log, t);
    }

    method SnapshotInserted(t: Tid, req: Req) returns (reply: Reply)
      requires Valid() && Answered() && At(t, req, Looking) && req.CreateSnapshot?
      modifies this`cloud, this`handlers, this`log, this`own, inFlight
      ensures Valid() && Answered() && old(log) <= log && At(t, req, Leaving(reply))
    {
      hide Step, Run;
      Interfere(t);
      var failed, ids, pick, how := GetSnapshotByName(req.name);
      if failed {
        Act(t, how, Leaving(Err(Unknown)), State());
        return Err(Unknown);
      }
      if ids != {} {
        var snapshot := cloud.snaps[pick];
        reply := if snapshot.volume != req.id then Err(AlreadyExists) else Reply(OK, pick, Wrap64(snapshot.sizeGB * GB));
        Act(t, how, Leaving(reply), State());
        return;
      }
      Act(t, how, Sourcing, State());
      reply := SnapshotNamed(t, req);
    }

    method SnapshotNamed(t: Tid, req: Req) returns (reply: Reply)
      requires Valid() && Answered() && At(t, req, Sourcing) && req.CreateSnapshot?
      modifies this`cloud, this`handlers, this`log, this`own, inFlight
      ensures Valid() && Answered() && old(log) <= log && At(t, req, Leaving(reply))
    {
      hide Step, Run;
      Interfere(t);
      var look, how := VolumeById(req.id);
      match look {
        case LookupError =>
          Act(t, how, Leaving(Err(FailedPrecondition)), State());
          return Err(FailedPrecondition);
        case NotThere =>
          Act(t, how, Leaving(Err(NotFound)), State());
          return Err(NotFound);
        case Found(vol) =>
          Act(t, how, Submitting(vol.capacity), State());
          Interfere(t);
          var out := Remote(t, req, vol.capacity);
          return if out.CallDone? then Reply(OK, out.id, vol.capacity) else Err(Internal);
      }
    }

    method DeleteSnapshot(t: Tid, id: string) returns (reply: Reply)
      requires Valid() && t !in handlers
      modifies this`cloud, this`handlers, this`log, this`own, inFlight
      ensures Valid() && Answered() && old(log) <= log && At(t, Req.DeleteSnapshot(id), Returned(reply))
      ensures reply.code == OK ==> TrueDuring(old(log), Req.DeleteSnapshot(id), reply)
    {
      hide Step, Run, Look, Submit, Count, LookSource, PollAppear, PollSettle, Claim, Init;
      var req := Req.DeleteSnapshot(id);
      ghost var before := log;
      Begin(t, req);
      Interfere(t);
      if |id| == 0 {
        Act(t, GO, Returned(Err(InvalidArgument)), State());
        reply := Err(InvalidArgument);
      } else {
        var ok := Acquire(t, req);
        if !ok {
          reply := Err(Aborted);
        } else {
          reply := SnapshotDeleted(t, req);
          Interfere(t);
          Release(t, req, reply);
        }
      }
      OkInLog(start, before, log, t);
    }

    method SnapshotDeleted(t: Tid, req: Req) returns (reply: Reply)
      requires Valid() && Answered() && At(t, req, Submitting(0)) && req.DeleteSnapshot?
      modifies this`cloud, this`handlers, this`log, this`own, inFlight
      ensures Valid() && Answered() && old(log) <= log && At(t, req, Leaving(reply))
    {
      hide Step, Run;
      Interfere(t);
      var out := Remote(t, req, 0);
      return if out.CallFailed? then Err(Internal) else DONE;
    }

    /** Some state since the events `before` satisfied what the reply claims. */
    ghost predicate TrueDuring(before: seq<Event>, req: Req, reply: Reply)
      reads this
    {
      exists k :: |before| <= k <= |log| && Claim(req, reply, Run(start, log[..k]).cloud)
    }
  }

  /** The poll sees the awaited size and no extension under way. */
  predicate Extended(look: Lookup, sizeBytes: int) {
    look.Found? && look.volume.capacity == sizeBytes && look.volume.status != StatusExtending
  }

  lemma NotExtended(sizeBytes: int)
    ensures !Extended(LookupError, sizeBytes) && !Extended(NotThere, sizeBytes)
  {
  }

  datatype Outcome = CallFailed | CallMissing | CallDone(id: string)

  /** One turn of WaitVolumeBeStatus. */
  lemma StatusPoll(req: Req, c: Cloud, id: string, how: How)
    requires !req.Expand?
    ensures PollSettle(req, c, id, how) ==
            match StatusVerdict(if how.Go? then VolumeById(c, id) else LookupError, Wanted(req))
            case Again => Settling(id)
            case Match => Finish(req, Success(req, id))
            case Fail => Finish(req, Err(CallError(req)))
  {
  }

  /** One turn of WaitVolumeBeExtended. */
  lemma ExtendPoll(req: Req, c: Cloud, id: string, how: How)
    requires req.Expand?
    ensures var look := if how.Go? then VolumeById(c, id) else LookupError;
      PollSettle(req, c, id, how) ==
        if !how.Go? then Returned(Err(Internal))
        else if look.NotThere? then Returned(Err(Panicked))
        else if Extended(look, Wrap64(RoundUpGB(req.bytes) * GB)) then Returned(Reply(OK, id, req.bytes))
        else Settling(id)
  {
  }

  lemma StepFrame(s: Sys, e: Event, t: Tid)
    requires !(e.Act? && e.t == t)
    ensures Step(s, e).max == s.max
    ensures t in s.handlers ==> t in Step(s, e).handlers && Step(s, e).handlers[t] == s.handlers[t]
  {
  }

  lemma RunSnoc(s: Sys, es: seq<Event>, e: Event)
    ensures Run(s, es + [e]) == Step(Run(s, es), e)
  {
    assert (es + [e])[..|es|] == es;
  }

  /** OkWasTrue, for a request that arrived after `before`. */
  lemma OkInLog(start: Sys, before: seq<Event>, log: seq<Event>, t: Tid)
    requires Init(start) && before <= log
    requires t !in Run(start, before).handlers && t in Run(start, log).handlers
    ensures var h := Run(start, log).handlers[t];
      h.pc.Returned? && h.pc.reply.code == OK ==>
        exists k :: |before| <= k <= |log| && Claim(h.req, h.pc.reply, Run(start, log[..k]).cloud)
  {
    hide Step, Run;
    var h := Run(start, log).handlers[t];
    if h.pc.Returned? && h.pc.reply.code == OK {
      var s, es := Run(start, before), log[|before|..];
      assert log == before + es;
      RunConcat(start, before, es);
      InitSound(start);
      RunSound(start, before);
      OkWasTrue(s, es, t);
      var k :| 0 <= k <= |es| && Claim(h.req, h.pc.reply, Run(s, es[..k]).cloud);
      RunConcat(start, before, es[..k]);
      assert log[..|before| + k] == before + es[..k];
    }
  }
}
