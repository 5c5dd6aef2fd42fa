/** What an OK reply means under interference: each is true of some state between the request's
    arrival and its return. */
module EbsOutcomes {
  import opened EbsTypes
  import opened EbsProtocol

  // ----- The cloud's own invariant -----

  /** Statuses, nodes and sizes are coherent, and only a listed volume has a node. */
  ghost predicate CloudOk(c: Cloud) {
    forall id | id in c.vols :: VolOk(c.vols[id]) && (c.vols[id].node != "" ==> c.vols[id].visible)
  }

  lemma CallCloudOk(req: Req, t: Tid, c: Cloud, how: How, size: int)
    requires CloudOk(c) && req.Valid()
    ensures CloudOk(Submit(req, t, c, how, size).1)
  {
    if req.CreateVolume? {
      RoundedFits(req.capacity);
    }
    if req.Expand? {
      RoundedFits(req.bytes);
    }
  }

  lemma StepCloudOk(s: Sys, e: Event)
    requires Sound(s)
    ensures CloudOk(Step(s, e).cloud)
  {
    match e
    case Act(t, how) =>
      if t in s.handlers && s.handlers[t].pc.Submitting? {
        CallCloudOk(s.handlers[t].req, t, s.cloud, how, s.handlers[t].pc.size);
      }
    case Progress(id) =>
      if id in s.cloud.vols {
        SettledOk(s.cloud.vols[id]);
      }
    case _ =>
  }

  lemma SettledOk(v: Vol)
    requires VolOk(v)
    ensures VolOk(Settled(v)) && (Settled(v).node == v.node || Settled(v).node == "") && Settled(v).visible == v.visible
  {
  }

  lemma StepSound(s: Sys, e: Event)
    requires Sound(s)
    ensures Sound(Step(s, e))
  {
    StepCloudOk(s, e);
  }

  /** Only validated requests get past Start. */
  predicate SoundRequest(h: Handler) {
    h.pc.Start? || h.pc.Returned? || h.req.Valid()
  }

  ghost predicate Sound(s: Sys) {
    CloudOk(s.cloud) && forall t | t in s.handlers :: SoundRequest(s.handlers[t])
  }

  lemma {:induction false} RunSound(s: Sys, es: seq<Event>)
    requires Sound(s)
    ensures Sound(Run(s, es))
  {
    if es != [] {
      RunSound(s, es[..|es| - 1]);
      StepSound(Run(s, es[..|es| - 1]), es[|es| - 1]);
    }
  }

  /** A controller that just started is sound. */
  lemma InitSound(s: Sys)
    requires Init(s)
    ensures Sound(s)
  {
  }

  // ----- What the cloud never undoes -----

  /** `v` after any steps: same name, zone, type and source, and at least as large. */
  predicate Grown(v: Vol, v': Vol) {
    v'.name == v.name && v'.zone == v.zone && v'.vtype == v.vtype && v'.snapshot == v.snapshot && v.sizeGB <= v'.sizeGB && (v.visible ==> v'.visible)
  }

  lemma StepGrows(s: Sys, e: Event)
    requires CloudOk(s.cloud)
    ensures forall id | id in s.cloud.vols :: id in Step(s, e).cloud.vols && Grown(s.cloud.vols[id], Step(s, e).cloud.vols[id])
  {
    match e
    case Act(t, how) =>
      if t in s.handlers && s.handlers[t].pc.Submitting? {
        CallGrows(s.handlers[t].req, t, s.cloud, how, s.handlers[t].pc.size);
      }
    case _ =>
  }

  lemma CallGrows(req: Req, t: Tid, c: Cloud, how: How, size: int)
    ensures var c' := Submit(req, t, c, how, size).1;
      forall id | id in c.vols :: id in c'.vols && Grown(c.vols[id], c'.vols[id])
  {
  }

  /** No run ever shrinks, renames or moves a volume. */
  lemma {:induction false} VolumesOnlyGrow(s: Sys, es: seq<Event>, id: string)
    requires Sound(s) && id in s.cloud.vols
    ensures id in Run(s, es).cloud.vols && Grown(s.cloud.vols[id], Run(s, es).cloud.vols[id])
  {
    if es != [] {
      VolumesOnlyGrow(s, es[..|es| - 1], id);
      RunSound(s, es[..|es| - 1]);
      StepGrows(Run(s, es[..|es| - 1]), es[|es| - 1]);
    }
  }

  // ----- Witnesses -----

  /** The claim an OK reply makes about the cloud. */
  predicate Claim(req: Req, reply: Reply, c: Cloud) {
    match req
    case CreateVolume(name, _, capacity, vtype, zone, _) =>
      && reply.id in c.vols
      && var v := c.vols[reply.id];
      && v.Listed() && v.status.Available?
      && v.name == name && v.vtype == vtype && v.zone == zone
      && capacity <= reply.bytes <= v.sizeGB * GB
    case DeleteVolume(id) => id !in c.vols || !c.vols[id].Listed() || c.vols[id].status.Deleted?
    case Publish(id, node, _) => id in c.vols && c.vols[id].Listed() && c.vols[id].status.Attached? && c.vols[id].node == node
    case Unpublish(id, node) => id !in c.vols || !c.vols[id].Live() || c.vols[id].node != node
    case CreateSnapshot(name, id) =>
      && reply.id in c.snaps
      && c.snaps[reply.id].Live() && c.snaps[reply.id].name == name && c.snaps[reply.id].volume == id
    case DeleteSnapshot(id) => id !in c.snaps || !c.snaps[id].Live()
    case Expand(id, bytes) =>
      id in c.vols && c.vols[id].Listed() && bytes <= reply.bytes <= c.vols[id].sizeGB * GB
  }

  /** Some state of the run satisfied the claim. */
  ghost predicate Witnessed(s: Sys, es: seq<Event>, req: Req, reply: Reply) {
    exists k :: 0 <= k <= |es| && Claim(req, reply, Run(s, es[..k]).cloud)
  }

  /** What holds of the cloud while a handler polls for its accepted call to complete. */
  predicate Promise(req: Req, id: string, c: Cloud) {
    match req
    case CreateVolume(name, _, capacity, vtype, zone, _) =>
      && id in c.vols
      && var v := c.vols[id];
      && v.name == name && v.vtype == vtype && v.zone == zone && capacity <= v.sizeGB * GB
    case Publish(_, node, _) =>
      id == req.id && id in c.vols && c.vols[id].Listed() && c.vols[id].status.Attaching? && c.vols[id].node == node
    case Expand(_, bytes) => id == req.id && RoundUpGB(bytes) > 1
    case CreateSnapshot(_, _) => false
    case DeleteSnapshot(_) => false
    case _ => id == req.id
  }

  /** What handler `t` may rely on after events `es`. */
  ghost predicate Track(s: Sys, es: seq<Event>, h: Handler) {
    match h.pc
    case Appearing(id) => h.req.CreateVolume? && Promise(h.req, id, Run(s, es).cloud)
    case Settling(id) =>
      || Promise(h.req, id, Run(s, es).cloud)
      || (h.req.Publish? && id == h.req.id && Witnessed(s, es, h.req, DONE))
    case Leaving(r) => r.code == OK ==> Witnessed(s, es, h.req, r)
    case Returned(r) => r.code == OK ==> Witnessed(s, es, h.req, r)
    case _ => true
  }

  lemma NowWitnessed(s: Sys, es: seq<Event>, req: Req, reply: Reply)
    requires Claim(req, reply, Run(s, es).cloud)
    ensures Witnessed(s, es, req, reply)
  {
    assert es[..|es|] == es;
  }

  lemma StillWitnessed(s: Sys, es: seq<Event>, e: Event, req: Req, reply: Reply)
    requires Witnessed(s, es, req, reply)
    ensures Witnessed(s, es + [e], req, reply)
  {
    var k :| 0 <= k <= |es| && Claim(req, reply, Run(s, es[..k]).cloud);
    assert (es + [e])[..k] == es[..k];
  }

  /** An accepted attach runs to attached: a promise is kept until it is fulfilled. */
  lemma StepPromise(s: Sys, e: Event, req: Req, id: string)
    requires CloudOk(s.cloud) && Promise(req, id, s.cloud)
    ensures Promise(req, id, Step(s, e).cloud) || (req.Publish? && id == req.id && Claim(req, DONE, Step(s, e).cloud))
  {
    StepGrows(s, e);
  }

  /** The handler's own step: an OK it decides on is true right then. */
  lemma ActClaims(s: Sys, t: Tid, how: How)
    requires Sound(s) && t in s.handlers
    requires s.handlers[t].pc.Settling? || s.handlers[t].pc.Appearing? ==>
               Promise(s.handlers[t].req, s.handlers[t].pc.id, s.cloud) || s.handlers[t].req.Publish?
    requires s.handlers[t].pc.Appearing? ==> s.handlers[t].req.CreateVolume?
    ensures var h := s.handlers[t]; var s' := Step(s, Act(t, how)); var pc := s'.handlers[t].pc;
      && ((pc.Appearing? || pc.Settling?) && !(h.pc.Settling? || h.pc.Appearing?) ==> Promise(h.req, pc.id, s'.cloud))
      && ((pc.Appearing? || pc.Settling?) && (h.pc.Settling? || h.pc.Appearing?) ==> pc.id == h.pc.id && s'.cloud == s.cloud)
      && (pc.Appearing? ==> h.req.CreateVolume?)
      && (pc.Leaving? || pc.Returned? ==>
            || pc.reply.code != OK
            || ((h.pc.Leaving? || h.pc.Returned?) && pc.reply == h.pc.reply)
            || (h.req.Publish? && h.pc.Settling? && pc.reply == DONE)
            || Claim(h.req, pc.reply, s'.cloud))
  {
    var h := s.handlers[t];
    match h.pc
    case Looking => LookClaims(s, t, how);
    case Submitting(_) => SubmitClaims(s, t, how);
    case Settling(_) => SettleClaims(s, t, how);
    case _ =>
  }

  lemma LookClaims(s: Sys, t: Tid, how: How)
    requires Sound(s) && t in s.handlers && s.handlers[t].pc.Looking?
    ensures var h := s.handlers[t]; var pc := Look(h.req, s.cloud, how);
      && !pc.Appearing? && !pc.Settling?
      && (pc.Leaving? || pc.Returned? ==> pc.reply.code != OK || Claim(h.req, pc.reply, s.cloud))
  {
    var h := s.handlers[t];
    if h.req.Expand? && h.req.id in s.cloud.vols {
      ExpandArithmetic(h.req.bytes, s.cloud.vols[h.req.id].sizeGB);
    }
  }

  /** The "same size" and "smaller" answers both mean that the volume already covers the request. */
  lemma ExpandArithmetic(bytes: int64, sizeGB: int)
    requires 1 <= sizeGB < 0x2_0000_0000
    ensures Wrap64(sizeGB * GB) == sizeGB * GB
    ensures Wrap64(RoundUpGB(bytes) * GB) == sizeGB * GB ==> bytes <= sizeGB * GB < bytes + GB
  {
    RoundedFits(bytes);
    if bytes >= 0 {
      RoundUpCovers(bytes);
    }
  }

  lemma SubmitClaims(s: Sys, t: Tid, how: How)
    requires Sound(s) && t in s.handlers && s.handlers[t].pc.Submitting?
    ensures var h := s.handlers[t]; var (pc, c) := Submit(h.req, t, s.cloud, how, h.pc.size);
      && (pc.Appearing? || pc.Settling? ==> Promise(h.req, pc.id, c))
      && (pc.Appearing? ==> h.req.CreateVolume?)
      && (pc.Leaving? || pc.Returned? ==> pc.reply.code != OK || Claim(h.req, pc.reply, c))
  {
    var h := s.handlers[t];
    if h.req.CreateVolume? && h.req.capacity >= 0 {
      RoundUpCovers(h.req.capacity);
    }
  }

  lemma SettleClaims(s: Sys, t: Tid, how: How)
    requires Sound(s) && t in s.handlers && s.handlers[t].pc.Settling?
    requires Promise(s.handlers[t].req, s.handlers[t].pc.id, s.cloud) || s.handlers[t].req.Publish?
    ensures var h := s.handlers[t]; var pc := PollSettle(h.req, s.cloud, h.pc.id, how);
      && !pc.Appearing?
      && (pc.Settling? ==> pc.id == h.pc.id)
      && (pc.Leaving? || pc.Returned? ==>
            pc.reply.code != OK || (h.req.Publish? && pc.reply == DONE) || Claim(h.req, pc.reply, s.cloud))
  {
    var h := s.handlers[t];
    if h.req.Expand? && h.req.id in s.cloud.vols {
      RoundedFits(h.req.bytes);
      ExpandArithmetic(h.req.bytes, s.cloud.vols[h.req.id].sizeGB);
    }
  }

  lemma {:induction false} Tracked(s: Sys, es: seq<Event>, t: Tid)
    requires Sound(s) && t !in s.handlers && t in Run(s, es).handlers
    ensures Track(s, es, Run(s, es).handlers[t])
  {
    if es != [] {
      var n := |es| - 1;
      var r, e := Run(s, es[..n]), es[n];
      assert es == es[..n] + [e];
      RunSound(s, es[..n]);
      if t in r.handlers {
        Tracked(s, es[..n], t);
        TrackStep(s, es[..n], e, t);
      }
    }
  }

  lemma TrackStep(s: Sys, es: seq<Event>, e: Event, t: Tid)
    requires Sound(Run(s, es)) && t in Run(s, es).handlers && Track(s, es, Run(s, es).handlers[t])
    ensures Track(s, es + [e], Run(s, es + [e]).handlers[t])
  {
    var r := Run(s, es);
    assert (es + [e])[..|es|] == es;
    if e.Act? && e.t == t {
      TrackAct(s, es, t, e.how);
    } else {
      assert Run(s, es + [e]).handlers[t] == r.handlers[t];
      TrackOther(s, es, e, r.handlers[t]);
    }
  }

  /** While others move, promises are kept and witnesses stay. */
  lemma TrackOther(s: Sys, es: seq<Event>, e: Event, h: Handler)
    requires CloudOk(Run(s, es).cloud) && Track(s, es, h)
    ensures Track(s, es + [e], h)
  {
    assert (es + [e])[..|es|] == es;
    if (h.pc.Appearing? || h.pc.Settling?) && Promise(h.req, h.pc.id, Run(s, es).cloud) {
      StepPromise(Run(s, es), e, h.req, h.pc.id);
      if h.req.Publish? && Claim(h.req, DONE, Run(s, es + [e]).cloud) {
        NowWitnessed(s, es + [e], h.req, DONE);
      }
    }
    if h.pc.Settling? && Witnessed(s, es, h.req, DONE) {
      StillWitnessed(s, es, e, h.req, DONE);
    }
    if (h.pc.Leaving? || h.pc.Returned?) && Witnessed(s, es, h.req, h.pc.reply) {
      StillWitnessed(s, es, e, h.req, h.pc.reply);
    }
  }

  /** The handler's own move. */
  lemma TrackAct(s: Sys, es: seq<Event>, t: Tid, how: How)
    requires Sound(Run(s, es)) && t in Run(s, es).handlers && Track(s, es, Run(s, es).handlers[t])
    ensures Track(s, es + [Act(t, how)], Run(s, es + [Act(t, how)]).handlers[t])
  {
    var r, e := Run(s, es), Act(t, how);
    var h := r.handlers[t];
    assert (es + [e])[..|es|] == es;
    var h' := Run(s, es + [e]).handlers[t];
    TrackOther(s, es, e, h);
    ActClaims(r, t, how);
    if h.req.Publish? && h.pc.Settling? && Promise(h.req, h.pc.id, r.cloud) {
      SettledPublish(r, t, how);
    }
    if (h'.pc.Leaving? || h'.pc.Returned?) && Claim(h.req, h'.pc.reply, Run(s, es + [e]).cloud) {
      NowWitnessed(s, es + [e], h.req, h'.pc.reply);
    }
  }

  /** A publish cannot see "attached" while its own attach is still under way. */
  lemma SettledPublish(s: Sys, t: Tid, how: How)
    requires t in s.handlers && s.handlers[t].req.Publish? && s.handlers[t].pc.Settling?
    requires Promise(s.handlers[t].req, s.handlers[t].pc.id, s.cloud)
    ensures var pc := Step(s, Act(t, how)).handlers[t].pc;
      pc.Leaving? || pc.Returned? ==> pc.reply.code != OK
  {
  }

  /** Every OK reply, under any interference by any number of other handlers and by the cloud, is
      true of some state between the request's arrival and its return.  In particular a publish that
      returns OK had its volume attached to the requested node, though its final wait looks only at
      the status. */
  lemma OkWasTrue(s: Sys, es: seq<Event>, t: Tid)
    requires Sound(s) && t !in s.handlers
    requires t in Run(s, es).handlers
    requires var pc := Run(s, es).handlers[t].pc; pc.Returned? && pc.reply.code == OK
    ensures Witnessed(s, es, Run(s, es).handlers[t].req, Run(s, es).handlers[t].pc.reply)
  {
    Tracked(s, es, t);
  }
}
