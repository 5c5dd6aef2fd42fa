/** The EBS controller of pkg/ebs as a concurrent protocol: any number of request handlers, one
    shared in-flight key set and one cloud.  `Step` is total; an event that is not enabled changes
    nothing, so every event sequence is a run. */
module EbsProtocol {
  import opened EbsTypes

  // ----- The cloud -----

  /** What the cloud is doing with a volume.  `Gone` volumes are no longer described. */
  datatype CloudStatus =
    | Creating | Failed | Available
    | Attaching | Attached | Detaching
    | Extending(targetGB: int, attached: bool)
    | Deleting | Deleted | Gone
  {
    /** The status string of a describe call. */
    function Raw(): string {
      match this
      case Creating => "creating"
      case Failed => "error"
      case Available => "available"
      case Attaching => "attaching"
      case Attached => "attached"
      case Detaching => "detaching"
      case Extending(_, _) => "extending"
      case Deleting => "deleting"
      case Deleted => "deleted"
      case Gone => "gone"
    }

    /** The volume belongs to a node in this status. */
    predicate HoldsNode() {
      Attaching? || Attached? || Detaching? || (Extending? && attached)
    }
  }

  type Tid = nat

  /** A cloud volume.  `creator` is the handler whose call created it, `snapshot` what it was made from. */
  datatype Vol = Vol(
    name: string,
    creator: Tid,
    visible: bool,
    status: CloudStatus,
    sizeGB: int,
    node: string,
    zone: string,
    vtype: string,
    snapshot: string)
  {
    predicate Live() { !status.Gone? }
    predicate Listed() { visible && Live() }
  }

  datatype Snap = Snap(name: string, creator: Tid, visible: bool, gone: bool, volume: string, sizeGB: int)
  {
    predicate Live() { !gone }
    predicate Listed() { visible && Live() }
  }

  datatype Cloud = Cloud(vols: map<string, Vol>, snaps: map<string, Snap>)

  // ----- Describe calls (cloud.go) -----

  datatype Lookup = LookupError | NotThere | Found(volume: Volume)

  function Describe(id: string, v: Vol): Lookup {
    if v.status.Failed? then LookupError
    else Found(Volume(id, v.name, StatusFromString(v.status.Raw()), Wrap64(v.sizeGB * GB), v.node, v.zone, v.vtype))
  }

  function VolumeById(c: Cloud, id: string): Lookup {
    if id in c.vols && c.vols[id].Listed() then Describe(id, c.vols[id]) else NotThere
  }

  /** The volumes a by-name describe returns; the driver uses the first, whichever that is. */
  function VolumesNamed(c: Cloud, name: string): set<string> {
    set id | id in c.vols && c.vols[id].Listed() && c.vols[id].name == name
  }

  function SnapsNamed(c: Cloud, name: string): set<string> {
    set id | id in c.snaps && c.snaps[id].Listed() && c.snaps[id].name == name
  }

  /** The volumes NodeById counts; one that is being attached counts from the accepted call on. */
  function OnNode(c: Cloud, node: string): set<string> {
    set id | id in c.vols && c.vols[id].node == node
  }

  datatype Verdict = Again | Match | Fail

  /** One turn of WaitVolumeBeStatus. */
  function StatusVerdict(look: Lookup, want: string): Verdict {
    match look
    case LookupError => Fail
    case NotThere => if want == "deleted" then Match else Fail
    case Found(v) => if StatusToString(v.status) == want then Match else Again
  }

  // ----- Requests and handlers -----

  datatype Code =
    | OK | InvalidArgument | Aborted | FailedPrecondition | AlreadyExists | NotFound | Internal
    | Unknown    // an error without a status code
    | Panicked   // a nil dereference in WaitVolumeBeExtended

  /** `id` and `bytes` are meaningful on OK of the calls that return them. */
  datatype Reply = Reply(code: Code, id: string, bytes: int)

  function Err(code: Code): Reply { Reply(code, "", 0) }

  const DONE := Reply(OK, "", 0)

  /** The content source of a create. */
  datatype Source = NoSource | FromSnapshot(id: string) | Unsupported
  {
    function SnapshotID(): string {
      if FromSnapshot? then id else ""
    }
  }

  datatype Req =
    | CreateVolume(name: string, hasCaps: bool, capacity: int64, vtype: string, zone: string, source: Source)
    | DeleteVolume(id: string)
    | Publish(id: string, node: string, capOk: bool)
    | Unpublish(id: string, node: string)
    | CreateSnapshot(name: string, id: string)
    | DeleteSnapshot(id: string)
    | Expand(id: string, bytes: int64)
  {
    /** The checks made before anything else. */
    predicate Valid() {
      match this
      case CreateVolume(name, hasCaps, _, _, _, _) => name != "" && hasCaps
      case Publish(id, node, capOk) => id != "" && node != "" && capOk
      case Unpublish(id, node) => id != "" && node != ""
      case CreateSnapshot(name, id) => name != "" && id != ""
      case _ => id != ""
    }

    /** Publish, unpublish and expand take no in-flight key. */
    predicate Guarded() {
      !Publish? && !Unpublish? && !Expand?
    }

    function Key(): string {
      if CreateVolume? || CreateSnapshot? then name else id
    }
  }

  datatype PC =
    | Start
    | Looking                // about to look the object up
    | Counting               // publish: about to count the node's volumes
    | Sourcing               // snapshot: about to look the source volume up
    | Submitting(size: int)  // about to make the changing call; `size` is the snapshot source's capacity
    | Appearing(id: string)  // create: WaitVolumeBeCreated
    | Settling(id: string)   // WaitVolumeBeStatus or WaitVolumeBeExtended
    | Leaving(reply: Reply)  // the deferred in-flight Delete is still to run
    | Returned(reply: Reply)

  datatype Handler = Handler(req: Req, pc: PC)
  {
    /** Between a successful Insert and the deferred Delete. */
    predicate Holds() { req.Guarded() && !pc.Start? && !pc.Returned? }
  }

  function Finish(req: Req, reply: Reply): PC {
    if req.Guarded() then Leaving(reply) else Returned(reply)
  }

  /** How the outside world answers a handler's next call.  `pick` is the object a by-name lookup
      lists first, or the fresh id of a created object; `vis` is whether that object is listed at once. */
  datatype How =
    | Go(pick: string, vis: bool)
    | Fault                       // the call fails without effect, or the context is done
    | Lost(pick: string, vis: bool)  // a changing call takes effect but its reply is lost

  const GO: How := Go("", true)

  /** The request is validated, then its key is inserted. */
  function Enter(req: Req, keys: set<string>): PC {
    if !req.Valid() then Returned(Err(InvalidArgument))
    else if !req.Guarded() then Looking
    else if req.Key() in keys then Returned(Err(Aborted))
    else if req.DeleteSnapshot? then Submitting(0)
    else Looking
  }

  /** The decisions made on what a lookup found; Start stands for "not enabled". */
  function Look(req: Req, c: Cloud, how: How): PC {
    match req
    case CreateVolume(name, _, capacity, vtype, zone, source) =>
      if zone == "" then Leaving(Err(Internal))
      else if source.Unsupported? then Leaving(Err(InvalidArgument))
      else if !how.Go? then Leaving(Err(FailedPrecondition))
      else if VolumesNamed(c, name) == {} then Submitting(0)
      else if how.pick !in VolumesNamed(c, name) then Looking
      else OnExisting(Describe(how.pick, c.vols[how.pick]), capacity, vtype, zone)
    case DeleteVolume(id) =>
      if !how.Go? then Leaving(Err(FailedPrecondition)) else
      (match VolumeById(c, id)
       case LookupError => Leaving(Err(FailedPrecondition))
       case NotThere => Leaving(DONE)
       case Found(_) => Submitting(0))
    case Publish(id, node, _) =>
      if !how.Go? then Returned(Err(FailedPrecondition)) else
      (match VolumeById(c, id)
       case LookupError => Returned(Err(FailedPrecondition))
       case NotThere => Returned(Err(NotFound))
       case Found(v) =>
         if v.Attached() then Returned(if v.nodeId == node then DONE else Err(FailedPrecondition))
         else if !v.Available() then Returned(Err(FailedPrecondition))
         else Counting)
    case Unpublish(id, node) =>
      if !how.Go? then Returned(Err(FailedPrecondition)) else
      (match VolumeById(c, id)
       case LookupError => Returned(Err(FailedPrecondition))
       case NotThere => Returned(DONE)
       case Found(v) =>
         if v.Available() || v.Deleted() || v.nodeId != node then Returned(DONE)
         else if v.Detaching() then Returned(Err(Internal))
         else Submitting(0))
    case CreateSnapshot(name, id) =>
      if !how.Go? then Leaving(Err(Unknown))
      else if SnapsNamed(c, name) == {} then Sourcing
      else if how.pick !in SnapsNamed(c, name) then Looking
      else if c.snaps[how.pick].volume != id then Leaving(Err(AlreadyExists))
      else Leaving(Reply(OK, how.pick, Wrap64(c.snaps[how.pick].sizeGB * GB)))
    case DeleteSnapshot(_) => Looking
    case Expand(id, bytes) =>
      if !how.Go? then Returned(Err(Internal)) else
      (match VolumeById(c, id)
       case LookupError => Returned(Err(Internal))
       case NotThere => Returned(Err(Internal))
       case Found(v) =>
         if Wrap64(RoundUpGB(bytes) * GB) == v.capacity && v.status != StatusExtending then
           Returned(Reply(OK, id, v.capacity))
         else if bytes < v.capacity && v.status != StatusExtending then
           Returned(Reply(OK, id, v.capacity))
         else Submitting(0))
  }

  /** CreateVolume's compatibility checks on a volume of the requested name. */
  function OnExisting(look: Lookup, capacity: int64, vtype: string, zone: string): PC {
    match look
    case Found(v) =>
      if !v.Available() then Leaving(Err(FailedPrecondition))
      else if v.volumeType != vtype then Leaving(Err(AlreadyExists))
      else if v.capacity < capacity then Leaving(Err(AlreadyExists))
      else if v.zoneId != zone then Leaving(Err(AlreadyExists))
      else Leaving(Reply(OK, v.id, v.capacity))
    case _ => Leaving(Err(FailedPrecondition))
  }

  function Count(req: Req, c: Cloud, max: int, how: How): PC
    requires req.Publish?
  {
    if !how.Go? then Returned(Err(NotFound))
    else if |OnNode(c, req.node)| >= max then Returned(Err(FailedPrecondition))
    else Submitting(0)
  }

  function LookSource(req: Req, c: Cloud, how: How): PC
    requires req.CreateSnapshot?
  {
    if !how.Go? then Leaving(Err(FailedPrecondition)) else
    match VolumeById(c, req.id)
    case LookupError => Leaving(Err(FailedPrecondition))
    case NotThere => Leaving(Err(NotFound))
    case Found(v) => Submitting(v.capacity)
  }

  // ----- Changing calls: what the cloud accepts -----

  predicate CanAttach(c: Cloud, id: string) {
    id in c.vols && c.vols[id].Listed() && c.vols[id].status.Available?
  }

  predicate CanDetach(c: Cloud, id: string, node: string) {
    id in c.vols && c.vols[id].Listed() && c.vols[id].status.Attached? && c.vols[id].node == node
  }

  predicate CanExtend(c: Cloud, id: string, sizeGB: int) {
    && id in c.vols && c.vols[id].Listed()
    && (c.vols[id].status.Available? || c.vols[id].status.Attached?)
    && c.vols[id].sizeGB < sizeGB
  }

  /** The cloud gives a created object an id that it has not used yet. */
  predicate FreshPick(req: Req, c: Cloud, how: How) {
    match req
    case CreateVolume(_, _, _, _, _, _) => how.Fault? || (how.pick != "" && how.pick !in c.vols)
    case CreateSnapshot(_, _) => how.Fault? || (how.pick != "" && how.pick !in c.snaps)
    case _ => true
  }

  /** The cloud after the call, or None when it refuses the call. */
  datatype Effect = Refused | Missing | Accepted(cloud: Cloud)

  function Call(req: Req, t: Tid, c: Cloud, how: How): Effect
    requires (how.Go? || how.Lost?) && FreshPick(req, c, how)
  {
    match req
    case CreateVolume(name, _, capacity, vtype, zone, source) =>
      if RoundUpGB(capacity) < 1 then Refused
      else Accepted(c.(vols := c.vols[how.pick :=
        Vol(name, t, how.vis, Creating, RoundUpGB(capacity), "", zone, vtype, source.SnapshotID())]))
    case DeleteVolume(id) =>
      if id !in c.vols || !c.vols[id].Listed() then Missing
      else if !c.vols[id].status.Available? then Refused
      else Accepted(c.(vols := c.vols[id := c.vols[id].(status := Deleting)]))
    case Publish(id, node, _) =>
      if !CanAttach(c, id) then Refused
      else Accepted(c.(vols := c.vols[id := c.vols[id].(status := Attaching, node := node)]))
    case Unpublish(id, node) =>
      if !CanDetach(c, id, node) then Refused
      else Accepted(c.(vols := c.vols[id := c.vols[id].(status := Detaching)]))
    case CreateSnapshot(name, id) =>
      if !VolumeById(c, id).Found? then Refused
      else Accepted(c.(snaps := c.snaps[how.pick := Snap(name, t, how.vis, false, id, c.vols[id].sizeGB)]))
    case DeleteSnapshot(id) =>
      if id !in c.snaps || !c.snaps[id].Live() then Missing
      else Accepted(c.(snaps := c.snaps[id := c.snaps[id].(gone := true)]))
    case Expand(id, bytes) =>
      if !CanExtend(c, id, RoundUpGB(bytes)) then Refused
      else Accepted(c.(vols := c.vols[id := c.vols[id].(status := Extending(RoundUpGB(bytes), c.vols[id].status.Attached?))]))
  }

  /** The code of a failed cloud call: some handlers wrap the error in a status, some do not. */
  function CallError(req: Req): Code {
    if req.CreateVolume? || req.DeleteVolume? then Unknown else Internal
  }

  /** Where an accepted call leads. */
  function Next(req: Req, how: How, size: int): PC
    requires how.Go?
  {
    match req
    case CreateVolume(_, _, _, _, _, _) => Appearing(how.pick)
    case CreateSnapshot(_, _) => Leaving(Reply(OK, how.pick, size))
    case DeleteSnapshot(_) => Leaving(DONE)
    case _ => Settling(req.id)
  }

  /** A volume or snapshot gone from the cloud counts as deleted. */
  function Submit(req: Req, t: Tid, c: Cloud, how: How, size: int): (PC, Cloud) {
    if how.Fault? then (Finish(req, Err(CallError(req))), c)
    else if !FreshPick(req, c, how) then (Submitting(size), c) else
    match Call(req, t, c, how)
    case Refused => (Finish(req, Err(CallError(req))), c)
    case Missing => (Finish(req, if how.Go? then DONE else Err(CallError(req))), c)
    case Accepted(c') => (if how.Go? then Next(req, how, size) else Finish(req, Err(CallError(req))), c')
  }

  // ----- Polling -----

  function Wanted(req: Req): string {
    match req
    case Publish(_, _, _) => "attached"
    case DeleteVolume(_) => "deleted"
    case _ => "available"
  }

  function Success(req: Req, id: string): Reply {
    match req
    case CreateVolume(_, _, capacity, _, _, _) => Reply(OK, id, capacity)
    case Expand(_, bytes) => Reply(OK, id, bytes)
    case _ => DONE
  }

  /** WaitVolumeBeCreated ignores lookup errors and ends only on success or a finished context. */
  function PollAppear(req: Req, c: Cloud, id: string, how: How): PC {
    if !how.Go? then Finish(req, Err(CallError(req)))
    else if VolumeById(c, id).Found? then Settling(id)
    else Appearing(id)
  }

  /** WaitVolumeBeStatus ends on any lookup error; WaitVolumeBeExtended ignores lookup errors but
      dereferences a missing volume. */
  function PollSettle(req: Req, c: Cloud, id: string, how: How): PC {
    if !how.Go? then Finish(req, Err(CallError(req)))
    else if req.Expand? then
      match VolumeById(c, id)
      case LookupError => Settling(id)
      case NotThere => Returned(Err(Panicked))
      case Found(v) =>
        if v.capacity == Wrap64(RoundUpGB(req.bytes) * GB) && v.status != StatusExtending
        then Returned(Success(req, id)) else Settling(id)
    else
      match StatusVerdict(VolumeById(c, id), Wanted(req))
      case Again => Settling(id)
      case Match => Finish(req, Success(req, id))
      case Fail => Finish(req, Err(CallError(req)))
  }

  // ----- The system -----

  datatype Sys = Sys(max: int, cloud: Cloud, keys: set<string>, handlers: map<Tid, Handler>)

  datatype Event =
    | Arrive(t: Tid, req: Req)
    | Act(t: Tid, how: How)
    | Appear(id: string)      // a created volume becomes listed
    | AppearSnap(id: string)
    | Progress(id: string)    // the cloud completes what it is doing with a volume
    | Break(id: string)       // a creation fails

  /** The handler's next control point, and the cloud after it. */
  function Move(s: Sys, t: Tid, how: How): (PC, Cloud)
    requires t in s.handlers
  {
    var h := s.handlers[t];
    match h.pc
    case Start => (Enter(h.req, s.keys), s.cloud)
    case Looking => (Look(h.req, s.cloud, how), s.cloud)
    case Counting => (if h.req.Publish? then Count(h.req, s.cloud, s.max, how) else Counting, s.cloud)
    case Sourcing => (if h.req.CreateSnapshot? then LookSource(h.req, s.cloud, how) else Sourcing, s.cloud)
    case Submitting(size) => Submit(h.req, t, s.cloud, how, size)
    case Appearing(id) => (PollAppear(h.req, s.cloud, id, how), s.cloud)
    case Settling(id) => (PollSettle(h.req, s.cloud, id, how), s.cloud)
    case Leaving(r) => (Returned(r), s.cloud)
    case Returned(r) => (Returned(r), s.cloud)
  }

  /** Insert on entering, Delete on leaving. */
  function Keys(h: Handler, next: PC, keys: set<string>): set<string> {
    if h.req.Guarded() && h.pc.Start? && !next.Returned? then keys + {h.req.Key()}
    else if h.req.Guarded() && h.pc.Leaving? then keys - {h.req.Key()}
    else keys
  }

  function Advance(s: Sys, t: Tid, how: How): Sys
    requires t in s.handlers
  {
    var (pc, cloud) := Move(s, t, how);
    s.(cloud := cloud,
       keys := Keys(s.handlers[t], pc, s.keys),
       handlers := s.handlers[t := s.handlers[t].(pc := pc)])
  }

  /** What an undisturbed volume turns into. */
  function Settled(v: Vol): Vol {
    match v.status
    case Creating => v.(status := Available)
    case Attaching => v.(status := Attached)
    case Detaching => v.(status := Available, node := "")
    case Extending(gb, attached) => v.(status := if attached then Attached else Available, sizeGB := gb)
    case Deleting => v.(status := Deleted)
    case Deleted => v.(status := Gone)
    case _ => v
  }

  function SetVol(s: Sys, id: string, v: Vol): Sys {
    s.(cloud := s.cloud.(vols := s.cloud.vols[id := v]))
  }

  function Step(s: Sys, e: Event): Sys {
    match e
    case Arrive(t, req) => if t in s.handlers then s else s.(handlers := s.handlers[t := Handler(req, Start)])
    case Act(t, how) => if t in s.handlers then Advance(s, t, how) else s
    case Appear(id) => if id in s.cloud.vols then SetVol(s, id, s.cloud.vols[id].(visible := true)) else s
    case AppearSnap(id) =>
      if id in s.cloud.snaps then
        s.(cloud := s.cloud.(snaps := s.cloud.snaps[id := s.cloud.snaps[id].(visible := true)]))
      else s
    case Progress(id) => if id in s.cloud.vols then SetVol(s, id, Settled(s.cloud.vols[id])) else s
    case Break(id) =>
      if id in s.cloud.vols && s.cloud.vols[id].status.Creating?
      then SetVol(s, id, s.cloud.vols[id].(status := Failed)) else s
  }

  function Run(s: Sys, es: seq<Event>): Sys {
    if es == [] then s else Step(Run(s, es[..|es| - 1]), es[|es| - 1])
  }

  /** At most one live volume per name. */
  ghost predicate UniqueVols(c: Cloud) {
    forall i, j | i in c.vols && j in c.vols && c.vols[i].Live() && c.vols[j].Live() && c.vols[i].name == c.vols[j].name
      :: i == j
  }

  /** At most one live snapshot per name. */
  ghost predicate UniqueSnaps(c: Cloud) {
    forall i, j | i in c.snaps && j in c.snaps && c.snaps[i].Live() && c.snaps[j].Live() && c.snaps[i].name == c.snaps[j].name
      :: i == j
  }

  /** A controller that has just started, in front of a cloud that already holds volumes. */
  ghost predicate Init(s: Sys) {
    && s.keys == {} && s.handlers == map[]
    && UniqueVols(s.cloud) && UniqueSnaps(s.cloud)
    && (forall i :: i in s.cloud.vols ==> s.cloud.vols[i].visible && VolOk(s.cloud.vols[i]))
    && (forall i :: i in s.cloud.snaps ==> s.cloud.snaps[i].visible)
  }

  /** A volume has a node exactly while it is attached or changing attachment, and a sane size. */
  predicate VolOk(v: Vol) {
    && (v.node != "" <==> v.status.HoldsNode())
    && 1 <= v.sizeGB < 0x2_0000_0000
    && (v.status.Extending? ==> v.sizeGB < v.status.targetGB < 0x2_0000_0000)
  }

  lemma {:induction false} RunConcat(s: Sys, a: seq<Event>, b: seq<Event>)
    ensures Run(s, a + b) == Run(Run(s, a), b)
  {
    if b == [] {
      assert a + b == a;
    } else {
      var n := |b| - 1;
      RunConcat(s, a, b[..n]);
      assert (a + b)[..|a + b| - 1] == a + b[..n];
    }
  }
}
