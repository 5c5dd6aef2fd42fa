/** Idempotence of CreateVolume and the size guarantees of ControllerExpandVolume. */
module EbsRepeat {
  import opened EbsTypes
  import opened EbsProtocol
  import opened EbsOutcomes

  // ----- Repeating a create -----

  /** A create request gets past its lookup, or succeeds, only when well formed. */
  predicate Vouched(h: Handler) {
    h.req.CreateVolume? && (match h.pc
      case Submitting(_) => true
      case Appearing(_) => true
      case Settling(_) => true
      case Leaving(r) => r.code == OK
      case Returned(r) => r.code == OK
      case _ => false)
    ==> h.req.zone != "" && !h.req.source.Unsupported?
  }

  lemma ActVouched(s: Sys, t: Tid, how: How)
    requires t in s.handlers && Vouched(s.handlers[t])
    ensures Vouched(s.handlers[t].(pc := Move(s, t, how).0))
  {
  }

  lemma StepVouched(s: Sys, e: Event, t: Tid)
    requires t in s.handlers ==> Vouched(s.handlers[t])
    ensures t in Step(s, e).handlers ==> Vouched(Step(s, e).handlers[t])
  {
    if e.Act? && e.t == t && t in s.handlers {
      ActVouched(s, t, e.how);
    }
  }

  lemma {:induction false} OkVouched(s: Sys, es: seq<Event>, t: Tid)
    requires t !in s.handlers && t in Run(s, es).handlers
    ensures Vouched(Run(s, es).handlers[t])
  {
    if es != [] {
      var n := |es| - 1;
      if t in Run(s, es[..n]).handlers {
        OkVouched(s, es[..n], t);
      }
      StepVouched(Run(s, es[..n]), es[n], t);
    }
  }

  /** What an OK create reply still guarantees in any later state in which the volume is listed. */
  lemma CreatedStillFits(s: Sys, es: seq<Event>, t: Tid)
    requires Sound(s) && t !in s.handlers && t in Run(s, es).handlers
    requires var h := Run(s, es).handlers[t]; h.req.CreateVolume? && h.pc.Returned? && h.pc.reply.code == OK
    ensures var r := Run(s, es); var req := r.handlers[t].req; var id := r.handlers[t].pc.reply.id;
      && req.zone != "" && !req.source.Unsupported?
      && id in r.cloud.vols
      && var v := r.cloud.vols[id];
      && v.visible && v.name == req.name && v.vtype == req.vtype && v.zone == req.zone
      && req.capacity <= v.sizeGB * GB == Wrap64(v.sizeGB * GB)
  {
    hide Step, Run;
    OkWasTrue(s, es, t);
    OkVouched(s, es, t);
    RunSound(s, es);
    var h := Run(s, es).handlers[t];
    var k :| 0 <= k <= |es| && Claim(h.req, h.pc.reply, Run(s, es[..k]).cloud);
    RunSound(s, es[..k]);
    assert es == es[..k] + es[k..];
    RunConcat(s, es[..k], es[k..]);
    VolumesOnlyGrow(Run(s, es[..k]), es[k..], h.pc.reply.id);
    ExpandArithmetic(0, Run(s, es).cloud.vols[h.pc.reply.id].sizeGB);
  }

  /** A whole create call that finds a volume of its name. */
  function Again(u: Tid, req: Req, pick: string): seq<Event> {
    [Arrive(u, req), Act(u, Fault)] + [Act(u, Go(pick, true)), Act(u, Fault)]
  }

  /** Repeating a CreateVolume request that returned OK, once nothing else of that name is in flight
      and while its volume is listed, available and the only live one of its name, returns the same
      volume id whichever volume the lookup picks, and changes neither the cloud nor the keys. */
  lemma RepeatedCreate(s: Sys, es: seq<Event>, t: Tid, u: Tid, pick: string)
    requires Sound(s) && t !in s.handlers && t in Run(s, es).handlers
    requires var h := Run(s, es).handlers[t]; h.req.CreateVolume? && h.req.Valid() && h.pc.Returned? && h.pc.reply.code == OK
    requires var r := Run(s, es); var h := r.handlers[t];
      && u !in r.handlers && h.req.name !in r.keys && UniqueVols(r.cloud)
      && h.pc.reply.id in r.cloud.vols && r.cloud.vols[h.pc.reply.id].status.Available?
      && pick in VolumesNamed(r.cloud, h.req.name)
    ensures var r := Run(s, es); var h := r.handlers[t]; var r' := Run(r, Again(u, h.req, pick));
      && r'.cloud == r.cloud && r'.keys == r.keys
      && u in r'.handlers
      && r'.handlers[u].pc == Returned(Reply(OK, h.pc.reply.id, r.cloud.vols[h.pc.reply.id].sizeGB * GB))
      && h.req.capacity <= r.cloud.vols[h.pc.reply.id].sizeGB * GB
  {
    hide Step, Run;
    CreatedStillFits(s, es, t);
    var r := Run(s, es);
    var h := r.handlers[t];
    assert h.pc.reply.id in VolumesNamed(r.cloud, h.req.name);
    assert pick == h.pc.reply.id;
    AgainRuns(r, u, h.req, pick);
  }

  lemma AgainEnters(s: Sys, u: Tid, req: Req)
    requires u !in s.handlers && req.CreateVolume? && req.Valid() && req.name !in s.keys
    ensures Run(s, [Arrive(u, req), Act(u, Fault)])
         == s.(keys := s.keys + {req.name}, handlers := s.handlers[u := Handler(req, Looking)])
  {
    assert [Arrive(u, req), Act(u, Fault)][..1] == [Arrive(u, req)] && [Arrive(u, req)][..0] == [];
    assert Run(s, [Arrive(u, req)]) == s.(handlers := s.handlers[u := Handler(req, Start)]);
  }

  lemma AgainFinds(s: Sys, u: Tid, req: Req, pick: string)
    requires u in s.handlers && s.handlers[u] == Handler(req, Looking)
    requires req.CreateVolume? && req.zone != "" && !req.source.Unsupported? && pick in VolumesNamed(s.cloud, req.name)
    requires var v := s.cloud.vols[pick];
      v.status.Available? && v.vtype == req.vtype && v.zone == req.zone && req.capacity <= Wrap64(v.sizeGB * GB)
    ensures Step(s, Act(u, Go(pick, true)))
         == s.(handlers := s.handlers[u := Handler(req, Leaving(Reply(OK, pick, Wrap64(s.cloud.vols[pick].sizeGB * GB))))])
  {
  }

  lemma AgainLeaves(s: Sys, u: Tid, req: Req, reply: Reply)
    requires u in s.handlers && s.handlers[u] == Handler(req, Leaving(reply)) && req.CreateVolume?
    ensures Step(s, Act(u, Fault)) == s.(keys := s.keys - {req.name}, handlers := s.handlers[u := Handler(req, Returned(reply))])
  {
  }

  lemma AgainRuns(s: Sys, u: Tid, req: Req, pick: string)
    requires u !in s.handlers && req.CreateVolume? && req.Valid() && req.name !in s.keys
    requires req.zone != "" && !req.source.Unsupported? && pick in VolumesNamed(s.cloud, req.name)
    requires var v := s.cloud.vols[pick];
      v.status.Available? && v.vtype == req.vtype && v.zone == req.zone && req.capacity <= Wrap64(v.sizeGB * GB)
    ensures var r := Run(s, Again(u, req, pick));
      && r.cloud == s.cloud && r.keys == s.keys && u in r.handlers
      && r.handlers[u].pc == Returned(Reply(OK, pick, Wrap64(s.cloud.vols[pick].sizeGB * GB)))
  {
    var find, leave := Act(u, Go(pick, true)), Act(u, Fault);
    AgainEnters(s, u, req);
    RunConcat(s, [Arrive(u, req), Act(u, Fault)], [find, leave]);
    var s2 := s.(keys := s.keys + {req.name}, handlers := s.handlers[u := Handler(req, Looking)]);
    assert [find, leave][..1] == [find] && [find][..0] == [];
    AgainTail(s2, u, req, pick);
  }

  lemma AgainTail(s: Sys, u: Tid, req: Req, pick: string)
    requires u in s.handlers && s.handlers[u] == Handler(req, Looking)
    requires req.CreateVolume? && req.zone != "" && !req.source.Unsupported? && pick in VolumesNamed(s.cloud, req.name)
    requires var v := s.cloud.vols[pick];
      v.status.Available? && v.vtype == req.vtype && v.zone == req.zone && req.capacity <= Wrap64(v.sizeGB * GB)
    ensures var r := Run(s, [Act(u, Go(pick, true)), Act(u, Fault)]);
      && r.cloud == s.cloud && r.keys == s.keys - {req.name} && u in r.handlers
      && r.handlers[u].pc == Returned(Reply(OK, pick, Wrap64(s.cloud.vols[pick].sizeGB * GB)))
  {
    var find, leave := Act(u, Go(pick, true)), Act(u, Fault);
    AgainFinds(s, u, req, pick);
    var reply := Reply(OK, pick, Wrap64(s.cloud.vols[pick].sizeGB * GB));
    AgainLeaves(Step(s, find), u, req, reply);
    assert [find, leave][..1] == [find] && [find][..0] == [];
    assert Run(s, [find]) == Step(s, find);
  }

  // ----- Expanding -----

  /** On a settled volume ControllerExpandVolume goes on to call the cloud exactly when the request
      exceeds the current size, for every int64 request; otherwise it answers at once with the
      current size, which covers the request. */
  lemma ExpandCallsIffBigger(s: Sys, t: Tid, how: How)
    requires t in s.handlers && s.handlers[t].req.Expand? && s.handlers[t].pc.Looking? && how.Go? && CloudOk(s.cloud)
    requires var id := s.handlers[t].req.id;
      id in s.cloud.vols && s.cloud.vols[id].Listed() && !s.cloud.vols[id].status.Extending? && !s.cloud.vols[id].status.Failed?
    ensures var req := s.handlers[t].req; var size := s.cloud.vols[req.id].sizeGB * GB; var s' := Step(s, Act(t, how));
      && s'.cloud == s.cloud
      && (req.bytes > size <==> s'.handlers[t].pc == Submitting(0))
      && (req.bytes <= size <==> s'.handlers[t].pc == Returned(Reply(OK, req.id, size)))
  {
    var req := s.handlers[t].req;
    ExpandArithmetic(req.bytes, s.cloud.vols[req.id].sizeGB);
  }

  /** The call the cloud then receives asks for at least the request and less than one GiB more,
      exactly when the request is at most 2^63 - 2^30; a larger one wraps to a negative size, which
      the cloud refuses, so the handler reports an error and the volume is untouched. */
  lemma ExpandCall(s: Sys, t: Tid, how: How)
    requires t in s.handlers && s.handlers[t].req.Expand? && s.handlers[t].pc.Submitting? && how.Go? && CloudOk(s.cloud)
    requires var req := s.handlers[t].req; req.id in s.cloud.vols && req.bytes > s.cloud.vols[req.id].sizeGB * GB
    requires var v := s.cloud.vols[s.handlers[t].req.id]; v.Listed() && (v.status.Available? || v.status.Attached?)
    ensures var req := s.handlers[t].req; var s' := Step(s, Act(t, how)); var v' := s'.cloud.vols[req.id];
      && (req.bytes <= MAX_ROUNDABLE ==>
            && s'.handlers[t].pc == Settling(req.id)
            && v'.status.Extending? && req.bytes <= v'.status.targetGB * GB < req.bytes + GB)
      && (req.bytes > MAX_ROUNDABLE ==> s'.cloud == s.cloud && s'.handlers[t].pc == Returned(Err(Internal)))
  {
    RoundUpCovers(s.handlers[t].req.bytes);
  }

  /** In any run, the poll that makes an expand return OK finds the volume at least as large as the
      request and less than one GiB larger, and reports the request itself. */
  lemma ExpandOkSize(s: Sys, es: seq<Event>, t: Tid, how: How)
    requires Sound(s) && t !in s.handlers && t in Run(s, es).handlers
    requires var h := Run(s, es).handlers[t]; h.req.Expand? && h.pc.Settling?
    requires var pc := Run(s, es + [Act(t, how)]).handlers[t].pc; pc.Returned? && pc.reply.code == OK
    ensures var r := Run(s, es + [Act(t, how)]); var h := r.handlers[t];
      && h.req == Run(s, es).handlers[t].req && h.req.id in r.cloud.vols
      && h.pc.reply.bytes == h.req.bytes <= r.cloud.vols[h.req.id].sizeGB * GB < h.req.bytes + GB
  {
    hide Run, Sound;
    Tracked(s, es, t);
    RunSound(s, es);
    RunConcat(s, es, [Act(t, how)]);
    OneStep(Run(s, es), Act(t, how));
    SettledSize(Run(s, es), t, how);
  }

  lemma OneStep(s: Sys, e: Event)
    ensures Run(s, [e]) == Step(s, e)
  {
    assert [e][..0] == [];
  }

  lemma SettledSize(s: Sys, t: Tid, how: How)
    requires Sound(s) && t in s.handlers && s.handlers[t].req.Expand?
    requires s.handlers[t].pc == Settling(s.handlers[t].req.id) && RoundUpGB(s.handlers[t].req.bytes) > 1
    requires var pc := Step(s, Act(t, how)).handlers[t].pc; pc.Returned? && pc.reply.code == OK
    ensures var r := Step(s, Act(t, how)); var h := r.handlers[t];
      && h.req == s.handlers[t].req && h.req.id in r.cloud.vols
      && h.pc.reply.bytes == h.req.bytes <= r.cloud.vols[h.req.id].sizeGB * GB < h.req.bytes + GB
  {
    var req := s.handlers[t].req;
    RoundedFits(req.bytes);
    ExpandArithmetic(req.bytes, s.cloud.vols[req.id].sizeGB);
  }

  /** A whole expand call that is answered at its lookup. */
  function ExpandCallOf(u: Tid, req: Req): seq<Event> {
    [Arrive(u, req), Act(u, Fault), Act(u, Go("", true))]
  }

  /** Repeating an expand that returned OK, after anything else has happened and with the volume listed
      and neither extending nor failed, returns OK with a size that covers the request, without a call to
      the cloud: neither the cloud nor the keys change. */
  lemma RepeatedExpand(s: Sys, es: seq<Event>, t: Tid, u: Tid)
    requires Sound(s) && t !in s.handlers && t in Run(s, es).handlers && u !in Run(s, es).handlers
    requires var h := Run(s, es).handlers[t]; h.req.Expand? && h.pc.Returned? && h.pc.reply.code == OK
    requires var r := Run(s, es); var id := r.handlers[t].req.id;
      id in r.cloud.vols && r.cloud.vols[id].Listed() && !r.cloud.vols[id].status.Extending? && !r.cloud.vols[id].status.Failed?
    ensures var r := Run(s, es); var req := r.handlers[t].req; var size := r.cloud.vols[req.id].sizeGB * GB;
      var r' := Run(s, es + ExpandCallOf(u, req));
      && r'.cloud == r.cloud && r'.keys == r.keys
      && u in r'.handlers && r'.handlers[u].pc == Returned(Reply(OK, req.id, size)) && req.bytes <= size
  {
    hide Step, Run, Sound, ExpandCallOf;
    var r := Run(s, es);
    var req := r.handlers[t].req;
    RunSound(s, es);
    OkWasTrue(s, es, t);
    var k :| 0 <= k <= |es| && Claim(req, r.handlers[t].pc.reply, Run(s, es[..k]).cloud);
    RunSound(s, es[..k]);
    assert es == es[..k] + es[k..];
    RunConcat(s, es[..k], es[k..]);
    VolumesOnlyGrow(Run(s, es[..k]), es[k..], req.id);
    assert req.id != "" by { ExpandValid(s, es, t); }
    RunConcat(s, es, ExpandCallOf(u, req));
    ExpandAnswered(r, u, req);
  }

  /** An expand that returned OK was a valid request. */
  lemma {:induction false} ExpandValid(s: Sys, es: seq<Event>, t: Tid)
    requires t !in s.handlers && t in Run(s, es).handlers && Run(s, es).handlers[t].req.Expand?
    ensures var pc := Run(s, es).handlers[t].pc;
      pc.Start? || (pc.Returned? && pc.reply.code != OK) || Run(s, es).handlers[t].req.id != ""
  {
    if es != [] {
      var n := |es| - 1;
      if t in Run(s, es[..n]).handlers {
        ExpandValid(s, es[..n], t);
      }
    }
  }

  lemma ExpandAnswered(s: Sys, u: Tid, req: Req)
    requires Sound(s) && u !in s.handlers && req.Expand? && req.id != ""
    requires req.id in s.cloud.vols && s.cloud.vols[req.id].Listed() && req.bytes <= s.cloud.vols[req.id].sizeGB * GB
    requires !s.cloud.vols[req.id].status.Extending? && !s.cloud.vols[req.id].status.Failed?
    ensures var r := Run(s, ExpandCallOf(u, req));
      && r.cloud == s.cloud && r.keys == s.keys && u in r.handlers
      && r.handlers[u].pc == Returned(Reply(OK, req.id, s.cloud.vols[req.id].sizeGB * GB))
  {
    hide Sound;
    var s2 := s.(handlers := s.handlers[u := Handler(req, Looking)]);
    ExpandEnters(s, u, req);
    RunConcat(s, [Arrive(u, req), Act(u, Fault)], [Act(u, Go("", true))]);
    assert ExpandCallOf(u, req) == [Arrive(u, req), Act(u, Fault)] + [Act(u, Go("", true))];
    OneStep(s2, Act(u, Go("", true)));
    assert CloudOk(s2.cloud) by { SoundCloud(s); }
    ExpandCallsIffBigger(s2, u, Go("", true));
    KeysStay(s2, u, Go("", true));
  }

  lemma SoundCloud(s: Sys)
    requires Sound(s)
    ensures CloudOk(s.cloud)
  {
  }

  lemma KeysStay(s: Sys, u: Tid, how: How)
    requires u in s.handlers && !s.handlers[u].req.Guarded()
    ensures Step(s, Act(u, how)).keys == s.keys && u in Step(s, Act(u, how)).handlers
  {
  }

  lemma ExpandEnters(s: Sys, u: Tid, req: Req)
    requires u !in s.handlers && req.Expand? && req.id != ""
    ensures Run(s, [Arrive(u, req), Act(u, Fault)]) == s.(handlers := s.handlers[u := Handler(req, Looking)])
  {
    assert [Arrive(u, req), Act(u, Fault)][..1] == [Arrive(u, req)] && [Arrive(u, req)][..0] == [];
    assert Run(s, [Arrive(u, req)]) == s.(handlers := s.handlers[u := Handler(req, Start)]);
  }
}
