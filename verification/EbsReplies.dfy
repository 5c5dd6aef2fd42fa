/** What each handler of pkg/ebs/controllersvc.go answers, and what it has done to the cloud by then, when
    every call is answered and nothing else happens: for each request and every state it can meet. */
module EbsReplies {
  import opened EbsTypes
  import opened EbsProtocol
  import opened EbsOutcomes

  /** `s` with handler `t` at `pc`, and this cloud and key set. */
  function With(s: Sys, t: Tid, req: Req, pc: PC, cloud: Cloud, keys: set<string>): Sys {
    s.(cloud := cloud, keys := keys, handlers := s.handlers[t := Handler(req, pc)])
  }

  function WithVol(c: Cloud, id: string, v: Vol): Cloud {
    c.(vols := c.vols[id := v])
  }

  // ----- Computing runs -----

  lemma RunOn(s: Sys, es: seq<Event>, e: Event)
    ensures Run(s, es + [e]) == Step(Run(s, es), e)
  {
    assert (es + [e])[..|es|] == es;
  }

  lemma Acted(s: Sys, t: Tid, req: Req, pc: PC, cloud: Cloud, keys: set<string>, how: How)
    ensures var s1 := With(s, t, req, pc, cloud, keys); var (pc', cloud') := Move(s1, t, how);
      Step(s1, Act(t, how)) == With(s, t, req, pc', cloud', Keys(Handler(req, pc), pc', keys))
  {
    hide Move, Keys;
    var s1 := With(s, t, req, pc, cloud, keys);
    var (pc', _) := Move(s1, t, how);
    assert s1.handlers[t := Handler(req, pc')] == s.handlers[t := Handler(req, pc')];
  }

  lemma Progressed(s: Sys, t: Tid, req: Req, pc: PC, cloud: Cloud, keys: set<string>, id: string)
    requires id in cloud.vols
    ensures Step(With(s, t, req, pc, cloud, keys), Progress(id))
         == With(s, t, req, pc, WithVol(cloud, id, Settled(cloud.vols[id])), keys)
  {
  }

  /** A request that has arrived and taken its first step. */
  function Entering(t: Tid, req: Req): seq<Event> {
    [Arrive(t, req)] + [Act(t, GO)]
  }

  /** Malformed requests are refused, a held key turns a guarded request away, and the rest is let in,
      holding its key. */
  lemma Enters(s: Sys, t: Tid, req: Req)
    requires t !in s.handlers
    ensures Run(s, Entering(t, req)) == (match req
      case CreateVolume(name, hasCaps, _, _, _, _) =>
        if name == "" || !hasCaps then With(s, t, req, Returned(Reply(InvalidArgument, "", 0)), s.cloud, s.keys)
        else if name in s.keys then With(s, t, req, Returned(Reply(Aborted, "", 0)), s.cloud, s.keys)
        else With(s, t, req, Looking, s.cloud, s.keys + {name})
      case DeleteVolume(id) =>
        if id == "" then With(s, t, req, Returned(Reply(InvalidArgument, "", 0)), s.cloud, s.keys)
        else if id in s.keys then With(s, t, req, Returned(Reply(Aborted, "", 0)), s.cloud, s.keys)
        else With(s, t, req, Looking, s.cloud, s.keys + {id})
      case Publish(id, node, capOk) =>
        if id == "" || node == "" || !capOk then With(s, t, req, Returned(Reply(InvalidArgument, "", 0)), s.cloud, s.keys)
        else With(s, t, req, Looking, s.cloud, s.keys)
      case Unpublish(id, node) =>
        if id == "" || node == "" then With(s, t, req, Returned(Reply(InvalidArgument, "", 0)), s.cloud, s.keys)
        else With(s, t, req, Looking, s.cloud, s.keys)
      case CreateSnapshot(name, id) =>
        if name == "" || id == "" then With(s, t, req, Returned(Reply(InvalidArgument, "", 0)), s.cloud, s.keys)
        else if name in s.keys then With(s, t, req, Returned(Reply(Aborted, "", 0)), s.cloud, s.keys)
        else With(s, t, req, Looking, s.cloud, s.keys + {name})
      case DeleteSnapshot(id) =>
        if id == "" then With(s, t, req, Returned(Reply(InvalidArgument, "", 0)), s.cloud, s.keys)
        else if id in s.keys then With(s, t, req, Returned(Reply(Aborted, "", 0)), s.cloud, s.keys)
        else With(s, t, req, Submitting(0), s.cloud, s.keys + {id})
      case Expand(id, _) =>
        if id == "" then With(s, t, req, Returned(Reply(InvalidArgument, "", 0)), s.cloud, s.keys)
        else With(s, t, req, Looking, s.cloud, s.keys))
  {
    assert Run(s, [Arrive(t, req)]) == With(s, t, req, Start, s.cloud, s.keys) by {
      assert [Arrive(t, req)][..0] == [];
    }
    RunOn(s, [Arrive(t, req)], Act(t, GO));
    Acted(s, t, req, Start, s.cloud, s.keys, GO);
  }

  /** One more step of the handler. */
  lemma Next(s: Sys, es: seq<Event>, t: Tid, req: Req, pc: PC, cloud: Cloud, keys: set<string>, how: How)
    requires Run(s, es) == With(s, t, req, pc, cloud, keys)
    ensures var s' := Run(s, es + [Act(t, how)]);
      && (pc.Looking? ==> s' == With(s, t, req, Look(req, cloud, how), cloud, keys))
      && (pc.Counting? && req.Publish? ==> s' == With(s, t, req, Count(req, cloud, s.max, how), cloud, keys))
      && (pc.Sourcing? && req.CreateSnapshot? ==> s' == With(s, t, req, LookSource(req, cloud, how), cloud, keys))
      && (pc.Submitting? ==>
            s' == With(s, t, req, Submit(req, t, cloud, how, pc.size).0, Submit(req, t, cloud, how, pc.size).1, keys))
      && (pc.Appearing? ==> s' == With(s, t, req, PollAppear(req, cloud, pc.id, how), cloud, keys))
      && (pc.Settling? ==> s' == With(s, t, req, PollSettle(req, cloud, pc.id, how), cloud, keys))
      && (pc.Leaving? ==>
            s' == With(s, t, req, Returned(pc.reply), cloud, if req.Guarded() then keys - {req.Key()} else keys))
      && (pc.Returned? ==> s' == With(s, t, req, pc, cloud, keys))
  {
    hide Run, Look, Submit, Count, LookSource, PollAppear, PollSettle;
    RunOn(s, es, Act(t, how));
    Acted(s, t, req, pc, cloud, keys, how);
  }

  lemma NextProgress(s: Sys, es: seq<Event>, t: Tid, req: Req, pc: PC, cloud: Cloud, keys: set<string>, id: string)
    requires Run(s, es) == With(s, t, req, pc, cloud, keys) && id in cloud.vols
    ensures Run(s, es + [Progress(id)]) == With(s, t, req, pc, WithVol(cloud, id, Settled(cloud.vols[id])), keys)
  {
    hide Run, With;
    RunOn(s, es, Progress(id));
    Progressed(s, t, req, pc, cloud, keys, id);
  }

  /** The reply, with nothing changed. */
  function Answer(s: Sys, t: Tid, req: Req, code: Code): Sys {
    With(s, t, req, Returned(Reply(code, "", 0)), s.cloud, s.keys)
  }

  /** `id` is not described: unknown, not listed yet, or gone. */
  predicate Unlisted(c: Cloud, id: string) {
    id !in c.vols || !c.vols[id].visible || c.vols[id].status.Gone?
  }

  // ----- Unpublish -----

  /** An unpublish, up to its detach call. */
  lemma UnpublishAnswers(s: Sys, t: Tid, id: string, node: string)
    requires t !in s.handlers && id != "" && node != ""
    ensures var req := Unpublish(id, node);
      Run(s, Entering(t, req) + [Act(t, GO)] + [Act(t, GO)]) ==
        if Unlisted(s.cloud, id) then Answer(s, t, req, OK)
        else var v := s.cloud.vols[id];
          if v.status.Failed? then Answer(s, t, req, FailedPrecondition)
          else if v.status.Available? || v.status.Deleted? || v.node != node then Answer(s, t, req, OK)
          else if !v.status.Attached? then Answer(s, t, req, Internal)
          else With(s, t, req, Settling(id), WithVol(s.cloud, id, v.(status := Detaching)), s.keys)
  {
    hide Run, With, Step;
    var req := Unpublish(id, node);
    Enters(s, t, req);
    Next(s, Entering(t, req), t, req, Looking, s.cloud, s.keys, GO);
    Next(s, Entering(t, req) + [Act(t, GO)], t, req, Look(req, s.cloud, GO), s.cloud, s.keys, GO);
  }

  /** An unpublish of a volume that is attached to the node detaches it and answers OK. */
  lemma UnpublishDetaches(s: Sys, t: Tid, id: string, node: string)
    requires t !in s.handlers && id != "" && node != "" && !Unlisted(s.cloud, id)
    requires s.cloud.vols[id].status.Attached? && s.cloud.vols[id].node == node
    ensures var req := Unpublish(id, node);
      Run(s, Entering(t, req) + [Act(t, GO)] + [Act(t, GO)] + [Progress(id)] + [Act(t, GO)]) ==
        With(s, t, req, Returned(Reply(OK, "", 0)),
             WithVol(s.cloud, id, s.cloud.vols[id].(status := Available, node := "")), s.keys)
  {
    hide Run, With, Step;
    var req := Unpublish(id, node);
    var es := Entering(t, req) + [Act(t, GO)] + [Act(t, GO)];
    UnpublishAnswers(s, t, id, node);
    var c1 := WithVol(s.cloud, id, s.cloud.vols[id].(status := Detaching));
    NextProgress(s, es, t, req, Settling(id), c1, s.keys, id);
    var c2 := WithVol(s.cloud, id, s.cloud.vols[id].(status := Available, node := ""));
    assert WithVol(c1, id, Settled(c1.vols[id])) == c2;
    Next(s, es + [Progress(id)], t, req, Settling(id), c2, s.keys, GO);
  }

  // ----- Publish -----

  /** A publish, up to its attach call. */
  lemma PublishAnswers(s: Sys, t: Tid, id: string, node: string)
    requires t !in s.handlers && id != "" && node != ""
    ensures var req := Publish(id, node, true);
      Run(s, Entering(t, req) + [Act(t, GO)] + [Act(t, GO)] + [Act(t, GO)]) ==
        if Unlisted(s.cloud, id) then Answer(s, t, req, NotFound)
        else var v := s.cloud.vols[id];
          if v.status.Attached? && v.node == node then Answer(s, t, req, OK)
          else if !v.status.Available? then Answer(s, t, req, FailedPrecondition)
          else if |set i | i in s.cloud.vols && s.cloud.vols[i].node == node| >= s.max then
            Answer(s, t, req, FailedPrecondition)
          else With(s, t, req, Settling(id), WithVol(s.cloud, id, v.(status := Attaching, node := node)), s.keys)
  {
    hide Run, With, Step;
    var req := Publish(id, node, true);
    var es := Entering(t, req) + [Act(t, GO)];
    Enters(s, t, req);
    Next(s, Entering(t, req), t, req, Looking, s.cloud, s.keys, GO);
    var pc := Look(req, s.cloud, GO);
    Next(s, es, t, req, pc, s.cloud, s.keys, GO);
    var pc' := if pc.Counting? then Count(req, s.cloud, s.max, GO) else pc;
    Next(s, es + [Act(t, GO)], t, req, pc', s.cloud, s.keys, GO);
  }

  /** A publish of an available volume on a node with room attaches it and answers OK. */
  lemma PublishAttaches(s: Sys, t: Tid, id: string, node: string)
    requires t !in s.handlers && id != "" && node != "" && !Unlisted(s.cloud, id) && s.cloud.vols[id].status.Available?
    requires |set i | i in s.cloud.vols && s.cloud.vols[i].node == node| < s.max
    ensures var req := Publish(id, node, true);
      Run(s, Entering(t, req) + [Act(t, GO)] + [Act(t, GO)] + [Act(t, GO)] + [Progress(id)] + [Act(t, GO)]) ==
        With(s, t, req, Returned(Reply(OK, "", 0)),
             WithVol(s.cloud, id, s.cloud.vols[id].(status := Attached, node := node)), s.keys)
  {
    hide Run, With, Step;
    var req := Publish(id, node, true);
    var es := Entering(t, req) + [Act(t, GO)] + [Act(t, GO)] + [Act(t, GO)];
    PublishAnswers(s, t, id, node);
    var c1 := WithVol(s.cloud, id, s.cloud.vols[id].(status := Attaching, node := node));
    NextProgress(s, es, t, req, Settling(id), c1, s.keys, id);
    var c2 := WithVol(s.cloud, id, s.cloud.vols[id].(status := Attached, node := node));
    assert WithVol(c1, id, Settled(c1.vols[id])) == c2;
    Next(s, es + [Progress(id)], t, req, Settling(id), c2, s.keys, GO);
  }

  // ----- Delete -----

  /** A delete, up to its call or its return. */
  lemma DeleteAnswers(s: Sys, t: Tid, id: string)
    requires t !in s.handlers && id != "" && id !in s.keys
    ensures var req := DeleteVolume(id);
      Run(s, Entering(t, req) + [Act(t, GO)] + [Act(t, GO)] + [Act(t, GO)]) ==
        if Unlisted(s.cloud, id) then Answer(s, t, req, OK)
        else var v := s.cloud.vols[id];
          if v.status.Failed? then Answer(s, t, req, FailedPrecondition)
          else if !v.status.Available? then Answer(s, t, req, Unknown)
          else With(s, t, req, Settling(id), WithVol(s.cloud, id, v.(status := Deleting)), s.keys + {id})
  {
    hide Run, With, Step;
    var req, keys := DeleteVolume(id), s.keys + {id};
    var es := Entering(t, req) + [Act(t, GO)];
    Enters(s, t, req);
    Next(s, Entering(t, req), t, req, Looking, s.cloud, keys, GO);
    var pc := Look(req, s.cloud, GO);
    Next(s, es, t, req, pc, s.cloud, keys, GO);
    assert keys - {id} == s.keys;
    if pc.Submitting? {
      var (pc', c') := Submit(req, t, s.cloud, GO, 0);
      Next(s, es + [Act(t, GO)], t, req, pc', c', keys, GO);
    } else {
      Next(s, es + [Act(t, GO)], t, req, Returned(pc.reply), s.cloud, s.keys, GO);
    }
  }

  /** A delete of an available volume deletes it and answers OK. */
  lemma DeleteDeletes(s: Sys, t: Tid, id: string)
    requires t !in s.handlers && id != "" && id !in s.keys && !Unlisted(s.cloud, id) && s.cloud.vols[id].status.Available?
    ensures var req := DeleteVolume(id);
      Run(s, Entering(t, req) + [Act(t, GO)] + [Act(t, GO)] + [Act(t, GO)] + [Progress(id)] + [Act(t, GO)] + [Act(t, GO)]) ==
        With(s, t, req, Returned(Reply(OK, "", 0)), WithVol(s.cloud, id, s.cloud.vols[id].(status := Deleted)), s.keys)
  {
    hide Run, With, Step;
    var req, keys := DeleteVolume(id), s.keys + {id};
    var es := Entering(t, req) + [Act(t, GO)] + [Act(t, GO)] + [Act(t, GO)];
    DeleteAnswers(s, t, id);
    var c1 := WithVol(s.cloud, id, s.cloud.vols[id].(status := Deleting));
    NextProgress(s, es, t, req, Settling(id), c1, keys, id);
    var c2 := WithVol(s.cloud, id, s.cloud.vols[id].(status := Deleted));
    assert WithVol(c1, id, Settled(c1.vols[id])) == c2;
    Next(s, es + [Progress(id)], t, req, Settling(id), c2, keys, GO);
    Next(s, es + [Progress(id)] + [Act(t, GO)], t, req, Leaving(Reply(OK, "", 0)), c2, keys, GO);
    assert keys - {id} == s.keys;
  }

  // ----- Expand -----

  lemma Rounded(bytes: int64)
    requires bytes > 0
    ensures bytes <= 0x7fff_ffff_c000_0000 ==>
              && RoundUpGB(bytes) == (bytes + 0x3fff_ffff) / 0x4000_0000
              && Wrap64(RoundUpGB(bytes) * GB) == RoundUpGB(bytes) * GB >= bytes
    ensures bytes > 0x7fff_ffff_c000_0000 ==> RoundUpGB(bytes) <= 0
  {
    RoundUpCovers(bytes);
  }

  lemma RoundedSmall(bytes: int64)
    requires bytes <= 0
    ensures RoundUpGB(bytes) < 1
  {
  }

  /** The poll that finds the volume at the size asked for. */
  lemma ExtendedPoll(c: Cloud, id: string, bytes: int64)
    requires 0 < bytes <= 0x7fff_ffff_c000_0000 && !Unlisted(c, id) && c.vols[id].sizeGB == (bytes + 0x3fff_ffff) / 0x4000_0000
    requires c.vols[id].status.Available? || c.vols[id].status.Attached?
    ensures PollSettle(Expand(id, bytes), c, id, GO) == Returned(Reply(OK, id, bytes))
  {
    hide RoundUpGB, Wrap64;
    Rounded(bytes);
  }

  /** An expand, up to its call: a size that already covers the request is reported, and otherwise the
      request, rounded up to GiB, is asked for. */
  lemma ExpandAnswers(s: Sys, t: Tid, id: string, bytes: int64)
    requires t !in s.handlers && id != "" && CloudOk(s.cloud)
    ensures var req := Expand(id, bytes);
      Run(s, Entering(t, req) + [Act(t, GO)] + [Act(t, GO)]) ==
        if Unlisted(s.cloud, id) || s.cloud.vols[id].status.Failed? then Answer(s, t, req, Internal)
        else var v := s.cloud.vols[id];
          if bytes <= v.sizeGB * 0x4000_0000 && !v.status.Extending? then
            With(s, t, req, Returned(Reply(OK, id, v.sizeGB * 0x4000_0000)), s.cloud, s.keys)
          else if bytes <= 0x7fff_ffff_c000_0000 && (v.status.Available? || v.status.Attached?) then
            With(s, t, req, Settling(id),
                 WithVol(s.cloud, id, v.(status := Extending((bytes + 0x3fff_ffff) / 0x4000_0000, v.status.Attached?))), s.keys)
          else Answer(s, t, req, Internal)
  {
    hide Run, With, Step, RoundUpGB, TruncDiv;
    var req := Expand(id, bytes);
    Enters(s, t, req);
    Next(s, Entering(t, req), t, req, Looking, s.cloud, s.keys, GO);
    Next(s, Entering(t, req) + [Act(t, GO)], t, req, Look(req, s.cloud, GO), s.cloud, s.keys, GO);
    if !Unlisted(s.cloud, id) {
      ExpandArithmetic(bytes, s.cloud.vols[id].sizeGB);
      if s.cloud.vols[id].sizeGB * GB <= bytes {
        Rounded(bytes);
      }
    }
  }

  /** An expand beyond the current size of an available or attached volume extends it and answers OK
      with the request. */
  lemma ExpandExtends(s: Sys, t: Tid, id: string, bytes: int64)
    requires t !in s.handlers && id != "" && CloudOk(s.cloud) && !Unlisted(s.cloud, id)
    requires s.cloud.vols[id].status.Available? || s.cloud.vols[id].status.Attached?
    requires s.cloud.vols[id].sizeGB * 0x4000_0000 < bytes <= 0x7fff_ffff_c000_0000
    ensures var req := Expand(id, bytes);
      Run(s, Entering(t, req) + [Act(t, GO)] + [Act(t, GO)] + [Progress(id)] + [Act(t, GO)]) ==
        With(s, t, req, Returned(Reply(OK, id, bytes)),
             WithVol(s.cloud, id, s.cloud.vols[id].(sizeGB := (bytes + 0x3fff_ffff) / 0x4000_0000)), s.keys)
  {
    hide Run, With, Step, RoundUpGB, Wrap64, PollSettle;
    var req, v := Expand(id, bytes), s.cloud.vols[id];
    var es := Entering(t, req) + [Act(t, GO)] + [Act(t, GO)];
    var gb := (bytes + 0x3fff_ffff) / 0x4000_0000;
    ExpandAnswers(s, t, id, bytes);
    var c1 := WithVol(s.cloud, id, v.(status := Extending(gb, v.status.Attached?)));
    NextProgress(s, es, t, req, Settling(id), c1, s.keys, id);
    var c2 := WithVol(s.cloud, id, v.(sizeGB := gb));
    assert WithVol(c1, id, Settled(c1.vols[id])) == c2;
    Next(s, es + [Progress(id)], t, req, Settling(id), c2, s.keys, GO);
    ExtendedPoll(c2, id, bytes);
  }

  // ----- Snapshots -----

  /** A snapshot whose name is free is taken from the source and reported with the source's size. */
  lemma SnapshotAnswers(s: Sys, t: Tid, name: string, id: string, newId: string)
    requires t !in s.handlers && name != "" && id != "" && name !in s.keys && CloudOk(s.cloud)
    requires newId != "" && newId !in s.cloud.snaps
    requires forall i | i in s.cloud.snaps && s.cloud.snaps[i].visible && !s.cloud.snaps[i].gone :: s.cloud.snaps[i].name != name
    ensures var req := CreateSnapshot(name, id);
      Run(s, Entering(t, req) + [Act(t, GO)] + [Act(t, GO)] + [Act(t, Go(newId, true))] + [Act(t, GO)]) ==
        if Unlisted(s.cloud, id) then Answer(s, t, req, NotFound)
        else var v := s.cloud.vols[id];
          if v.status.Failed? then Answer(s, t, req, FailedPrecondition)
          else With(s, t, req, Returned(Reply(OK, newId, v.sizeGB * 0x4000_0000)),
                    s.cloud.(snaps := s.cloud.snaps[newId := Snap(name, t, true, false, id, v.sizeGB)]), s.keys)
  {
    hide Run, With, Step;
    var req, keys := CreateSnapshot(name, id), s.keys + {name};
    var es := Entering(t, req) + [Act(t, GO)];
    assert SnapsNamed(s.cloud, name) == {};
    Enters(s, t, req);
    Next(s, Entering(t, req), t, req, Looking, s.cloud, keys, GO);
    Next(s, es, t, req, Sourcing, s.cloud, keys, GO);
    var pc := LookSource(req, s.cloud, GO);
    var how := Go(newId, true);
    Next(s, es + [Act(t, GO)], t, req, pc, s.cloud, keys, how);
    assert keys - {name} == s.keys;
    if pc.Submitting? {
      ExpandArithmetic(0, s.cloud.vols[id].sizeGB);
      var (pc', c') := Submit(req, t, s.cloud, how, pc.size);
      Next(s, es + [Act(t, GO)] + [Act(t, how)], t, req, pc', c', keys, GO);
    } else {
      Next(s, es + [Act(t, GO)] + [Act(t, how)], t, req, Returned(pc.reply), s.cloud, s.keys, GO);
    }
  }

  /** A snapshot whose name is taken is answered with the one that has it, if that is of the same source. */
  lemma SnapshotFound(s: Sys, t: Tid, name: string, id: string, pick: string)
    requires t !in s.handlers && name != "" && id != "" && name !in s.keys
    requires pick in s.cloud.snaps && s.cloud.snaps[pick].visible && !s.cloud.snaps[pick].gone && s.cloud.snaps[pick].name == name
    requires 0 <= s.cloud.snaps[pick].sizeGB < 0x2_0000_0000
    ensures var req := CreateSnapshot(name, id);
      Run(s, Entering(t, req) + [Act(t, Go(pick, true))] + [Act(t, GO)]) ==
        if s.cloud.snaps[pick].volume != id then Answer(s, t, req, AlreadyExists)
        else With(s, t, req, Returned(Reply(OK, pick, s.cloud.snaps[pick].sizeGB * 0x4000_0000)), s.cloud, s.keys)
  {
    hide Run, With, Step;
    var req, keys, how := CreateSnapshot(name, id), s.keys + {name}, Go(pick, true);
    assert pick in SnapsNamed(s.cloud, name);
    Enters(s, t, req);
    Next(s, Entering(t, req), t, req, Looking, s.cloud, keys, how);
    Next(s, Entering(t, req) + [Act(t, how)], t, req, Look(req, s.cloud, how), s.cloud, keys, GO);
    assert keys - {name} == s.keys;
  }

  /** Deleting a snapshot deletes it, and one that is gone already is no error. */
  lemma SnapshotDeletes(s: Sys, t: Tid, id: string)
    requires t !in s.handlers && id != "" && id !in s.keys
    ensures var req := DeleteSnapshot(id);
      Run(s, Entering(t, req) + [Act(t, GO)] + [Act(t, GO)]) ==
        if id !in s.cloud.snaps || s.cloud.snaps[id].gone then Answer(s, t, req, OK)
        else With(s, t, req, Returned(Reply(OK, "", 0)),
                  s.cloud.(snaps := s.cloud.snaps[id := s.cloud.snaps[id].(gone := true)]), s.keys)
  {
    hide Run, With, Step;
    var req, keys := DeleteSnapshot(id), s.keys + {id};
    Enters(s, t, req);
    Next(s, Entering(t, req), t, req, Submitting(0), s.cloud, keys, GO);
    var (pc, c) := Submit(req, t, s.cloud, GO, 0);
    Next(s, Entering(t, req) + [Act(t, GO)], t, req, pc, c, keys, GO);
    assert keys - {id} == s.keys;
  }

  // ----- Create -----

  /** A create that finds a volume of its name returns it if it is available, of the type and in the zone
      asked for, and large enough. */
  lemma CreateFinds(s: Sys, t: Tid, req: Req, pick: string)
    requires t !in s.handlers && req.CreateVolume? && req.name != "" && req.hasCaps && req.name !in s.keys && CloudOk(s.cloud)
    requires !Unlisted(s.cloud, pick) && s.cloud.vols[pick].name == req.name
    ensures Run(s, Entering(t, req) + [Act(t, Go(pick, true))] + [Act(t, GO)]) ==
              (var v := s.cloud.vols[pick];
               if req.zone == "" then Answer(s, t, req, Internal)
               else if req.source.Unsupported? then Answer(s, t, req, InvalidArgument)
               else if !v.status.Available? then Answer(s, t, req, FailedPrecondition)
               else if v.vtype != req.vtype || v.sizeGB * 0x4000_0000 < req.capacity || v.zone != req.zone then
                 Answer(s, t, req, AlreadyExists)
               else With(s, t, req, Returned(Reply(OK, pick, v.sizeGB * 0x4000_0000)), s.cloud, s.keys))
  {
    hide Run, With, Step;
    var keys, how := s.keys + {req.name}, Go(pick, true);
    assert pick in VolumesNamed(s.cloud, req.name);
    ExpandArithmetic(0, s.cloud.vols[pick].sizeGB);
    Enters(s, t, req);
    Next(s, Entering(t, req), t, req, Looking, s.cloud, keys, how);
    Next(s, Entering(t, req) + [Act(t, how)], t, req, Look(req, s.cloud, how), s.cloud, keys, GO);
    assert keys - {req.name} == s.keys;
  }

  /** A create whose name is free, up to its call or its return. */
  lemma CreateAnswers(s: Sys, t: Tid, req: Req, newId: string)
    requires t !in s.handlers && req.CreateVolume? && req.name != "" && req.hasCaps && req.name !in s.keys
    requires newId != "" && newId !in s.cloud.vols
    requires forall i | i in s.cloud.vols && s.cloud.vols[i].name == req.name :: Unlisted(s.cloud, i)
    ensures Run(s, Entering(t, req) + [Act(t, GO)] + [Act(t, Go(newId, true))] + [Act(t, GO)]) ==
              if req.zone == "" then Answer(s, t, req, Internal)
              else if req.source.Unsupported? then Answer(s, t, req, InvalidArgument)
              else if !(0 < req.capacity <= 0x7fff_ffff_c000_0000) then Answer(s, t, req, Unknown)
              else With(s, t, req, Settling(newId),
                        WithVol(s.cloud, newId, Vol(req.name, t, true, Creating, (req.capacity + 0x3fff_ffff) / 0x4000_0000,
                                                    "", req.zone, req.vtype, req.source.SnapshotID())),
                        s.keys + {req.name})
  {
    hide Run, With, Step, RoundUpGB, TruncDiv;
    var keys, how := s.keys + {req.name}, Go(newId, true);
    var es := Entering(t, req) + [Act(t, GO)];
    assert VolumesNamed(s.cloud, req.name) == {};
    Enters(s, t, req);
    Next(s, Entering(t, req), t, req, Looking, s.cloud, keys, GO);
    var pc := Look(req, s.cloud, GO);
    Next(s, es, t, req, pc, s.cloud, keys, how);
    assert keys - {req.name} == s.keys;
    if req.capacity > 0 {
      Rounded(req.capacity);
    } else {
      RoundedSmall(req.capacity);
    }
    if pc.Submitting? {
      var (pc', c') := Submit(req, t, s.cloud, how, 0);
      Next(s, es + [Act(t, how)], t, req, pc', c', keys, GO);
    } else {
      Next(s, es + [Act(t, how)], t, req, Returned(pc.reply), s.cloud, s.keys, GO);
    }
  }

  /** A well-formed create whose name is free makes the volume asked for and answers OK with its id. */
  lemma CreateCreates(s: Sys, t: Tid, req: Req, newId: string)
    requires t !in s.handlers && req.CreateVolume? && req.name != "" && req.hasCaps && req.name !in s.keys
    requires forall i | i in s.cloud.vols && s.cloud.vols[i].name == req.name :: Unlisted(s.cloud, i)
    requires req.zone != "" && !req.source.Unsupported? && 0 < req.capacity <= 0x7fff_ffff_c000_0000
    requires newId != "" && newId !in s.cloud.vols
    ensures Run(s, Entering(t, req) + [Act(t, GO)] + [Act(t, Go(newId, true))] + [Act(t, GO)]
                   + [Progress(newId)] + [Act(t, GO)] + [Act(t, GO)]) ==
              With(s, t, req, Returned(Reply(OK, newId, req.capacity)),
                   WithVol(s.cloud, newId, Vol(req.name, t, true, Available, (req.capacity + 0x3fff_ffff) / 0x4000_0000,
                                               "", req.zone, req.vtype, req.source.SnapshotID())),
                   s.keys)
  {
    hide Run, With, Step;
    var keys := s.keys + {req.name};
    var es := Entering(t, req) + [Act(t, GO)] + [Act(t, Go(newId, true))] + [Act(t, GO)];
    CreateAnswers(s, t, req, newId);
    var v := Vol(req.name, t, true, Creating, (req.capacity + 0x3fff_ffff) / 0x4000_0000, "", req.zone, req.vtype, req.source.SnapshotID());
    var c1, c2 := WithVol(s.cloud, newId, v), WithVol(s.cloud, newId, v.(status := Available));
    NextProgress(s, es, t, req, Settling(newId), c1, keys, newId);
    assert WithVol(c1, newId, Settled(c1.vols[newId])) == c2;
    Next(s, es + [Progress(newId)], t, req, Settling(newId), c2, keys, GO);
    Next(s, es + [Progress(newId)] + [Act(t, GO)], t, req, Leaving(Reply(OK, newId, req.capacity)), c2, keys, GO);
    assert keys - {req.name} == s.keys;
  }

  /** A create that asks for another snapshot under the name of a volume it finds is answered OK with that
      volume, whatever that was made from. */
  lemma OtherSource(s: Sys, t: Tid, u: Tid, req: Req, newId: string, other: Source)
    requires t !in s.handlers && u !in s.handlers && t != u && CloudOk(s.cloud)
    requires req.CreateVolume? && req.name != "" && req.hasCaps && req.name !in s.keys
    requires forall i | i in s.cloud.vols && s.cloud.vols[i].name == req.name :: Unlisted(s.cloud, i)
    requires req.zone != "" && 0 < req.capacity <= 0x7fff_ffff_c000_0000 && newId != "" && newId !in s.cloud.vols
    requires req.source.FromSnapshot? && other.FromSnapshot? && other.id != req.source.id
    ensures var first := Entering(t, req) + [Act(t, GO)] + [Act(t, Go(newId, true))] + [Act(t, GO)]
                         + [Progress(newId)] + [Act(t, GO)] + [Act(t, GO)];
      var again := req.(source := other);
      var r := Run(s, first + (Entering(u, again) + [Act(u, Go(newId, true))] + [Act(u, GO)]));
      && u in r.handlers && r.handlers[u].pc.Returned? && r.handlers[u].pc.reply.code == OK
      && r.handlers[u].pc.reply.id == newId && newId in r.cloud.vols && r.cloud.vols[newId].snapshot == req.source.id != other.id
  {
    hide Run, Step;
    var first := Entering(t, req) + [Act(t, GO)] + [Act(t, Go(newId, true))] + [Act(t, GO)]
                 + [Progress(newId)] + [Act(t, GO)] + [Act(t, GO)];
    var again := req.(source := other);
    CreateCreates(s, t, req, newId);
    var r := Run(s, first);
    Rounded(req.capacity);
    RoundedFits(req.capacity);
    CreateFinds(r, u, again, newId);
    RunConcat(s, first, Entering(u, again) + [Act(u, Go(newId, true))] + [Act(u, GO)]);
  }

  // ----- Polls -----

  /** A handler that waits for its call to complete goes on waiting while the cloud is at work, whoever
      else polls, and ends on the status it waits for, on a failed creation and on a missing volume. */
  lemma PollAnswers(s: Sys, t: Tid)
    requires t in s.handlers && s.handlers[t].pc.Settling?
    requires var req := s.handlers[t].req; req.CreateVolume? || req.DeleteVolume? || req.Publish? || req.Unpublish?
    ensures var h := s.handlers[t]; var id := h.pc.id; var s' := Step(s, Act(t, GO)); var pc := s'.handlers[t].pc;
      var failed := match h.req
        case CreateVolume(_, _, _, _, _, _) => Leaving(Reply(Unknown, "", 0))
        case DeleteVolume(_) => Leaving(Reply(Unknown, "", 0))
        case _ => Returned(Reply(Internal, "", 0));
      && s'.cloud == s.cloud && s'.keys == s.keys
      && pc == if Unlisted(s.cloud, id) then (if h.req.DeleteVolume? then Leaving(Reply(OK, "", 0)) else failed)
               else var status := s.cloud.vols[id].status;
                 if status.Failed? then failed
                 else match h.req
                   case CreateVolume(_, _, capacity, _, _, _) =>
                     if status.Available? then Leaving(Reply(OK, id, capacity)) else Settling(id)
                   case DeleteVolume(_) => if status.Deleted? then Leaving(Reply(OK, "", 0)) else Settling(id)
                   case Publish(_, _, _) => if status.Attached? then Returned(Reply(OK, "", 0)) else Settling(id)
                   case _ => if status.Available? then Returned(Reply(OK, "", 0)) else Settling(id)
  {
  }

  /** The same for the wait after an extension, which a failed volume does not end, and for the wait until
      a created volume is listed. */
  lemma OtherPolls(s: Sys, t: Tid, id: string)
    requires t in s.handlers && CloudOk(s.cloud)
    ensures var h := s.handlers[t]; var s' := Step(s, Act(t, GO)); var pc := s'.handlers[t].pc;
      && (h.req.Expand? && h.pc == Settling(id) && 0 < h.req.bytes <= 0x7fff_ffff_c000_0000 ==>
            && s'.cloud == s.cloud
            && pc == if Unlisted(s.cloud, id) then Returned(Reply(Panicked, "", 0))
                     else if s.cloud.vols[id].status.Failed? || s.cloud.vols[id].status.Extending? then Settling(id)
                     else if s.cloud.vols[id].sizeGB == (h.req.bytes + 0x3fff_ffff) / 0x4000_0000 then
                       Returned(Reply(OK, id, h.req.bytes))
                     else Settling(id))
      && (h.pc == Appearing(id) ==>
            && s'.cloud == s.cloud
            && pc == if Unlisted(s.cloud, id) || s.cloud.vols[id].status.Failed? then Appearing(id) else Settling(id))
  {
    hide RoundUpGB, TruncDiv;
    var h := s.handlers[t];
    if h.req.Expand? && 0 < h.req.bytes {
      Rounded(h.req.bytes);
    }
    if id in s.cloud.vols {
      ExpandArithmetic(0, s.cloud.vols[id].sizeGB);
    }
  }

  // ----- Failed calls -----

  /** The code that a failed call is answered with. */
  lemma FailedCall(s: Sys, t: Tid, how: How)
    requires t in s.handlers && !how.Go?
    ensures var h := s.handlers[t]; var s' := Step(s, Act(t, how)); var pc := s'.handlers[t].pc;
      && (h.pc.Looking? && !h.req.DeleteSnapshot? && (h.req.CreateVolume? ==> h.req.zone != "" && !h.req.source.Unsupported?) ==>
            && s'.cloud == s.cloud && (pc.Leaving? || pc.Returned?)
            && pc.reply == Reply(if h.req.CreateSnapshot? then Unknown else if h.req.Expand? then Internal
                                 else FailedPrecondition, "", 0))
      && (h.pc.Counting? && h.req.Publish? ==> s'.cloud == s.cloud && pc == Returned(Reply(NotFound, "", 0)))
      && (h.pc.Sourcing? && h.req.CreateSnapshot? ==> s'.cloud == s.cloud && pc == Leaving(Reply(FailedPrecondition, "", 0)))
      && ((h.pc.Submitting? && how.Fault?) || h.pc.Appearing? || h.pc.Settling? ==>
            && s'.cloud == s.cloud && (pc.Leaving? || pc.Returned?)
            && pc.reply == Reply(if h.req.CreateVolume? || h.req.DeleteVolume? then Unknown else Internal, "", 0))
      && (h.pc.Submitting? && how.Lost? && (h.req.CreateVolume? || h.req.CreateSnapshot? ==>
              how.pick != "" && how.pick !in s.cloud.vols && how.pick !in s.cloud.snaps) ==>
            && (pc.Leaving? || pc.Returned?)
            && pc.reply == Reply(if h.req.CreateVolume? || h.req.DeleteVolume? then Unknown else Internal, "", 0)
            && s'.cloud in {s.cloud, Step(s, Act(t, Go(how.pick, how.vis))).cloud})
  {
  }
}
