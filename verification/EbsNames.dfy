/** In-flight keys and names: what the shared key set protects in every interleaving. */
module EbsNames {
  import opened EbsTypes
  import opened EbsProtocol

  // ----- The in-flight set -----

  /** The keys of the handlers between a successful Insert and their deferred Delete. */
  function HeldKeys(s: Sys): set<string> {
    set t | t in s.handlers && s.handlers[t].Holds() :: s.handlers[t].req.Key()
  }

  ghost predicate KeysExact(s: Sys) {
    && s.keys == HeldKeys(s)
    && forall t, u | t in s.handlers && u in s.handlers && s.handlers[t].Holds() && s.handlers[u].Holds()
                     && s.handlers[t].req.Key() == s.handlers[u].req.Key() :: t == u
  }

  /** What one step does to the keys: Insert on entering, Delete on leaving. */
  ghost predicate KeysChange(s: Sys, s': Sys, e: Event) {
    && (forall u | u in s.handlers :: u in s'.handlers && s'.handlers[u].req == s.handlers[u].req)
    && (forall u | u in s.handlers && (e.Act? ==> u != e.t) :: s'.handlers[u] == s.handlers[u])
    && (forall u | u in s'.handlers && u !in s.handlers :: s'.handlers[u].pc.Start?)
    && if e.Act? && e.t in s.handlers then
         var h, h' := s.handlers[e.t], s'.handlers[e.t];
         if h.Holds() == h'.Holds() then s'.keys == s.keys
         else if h.Holds() then s'.keys == s.keys - {h.req.Key()}
         else h.req.Key() !in s.keys && s'.keys == s.keys + {h.req.Key()}
       else s'.keys == s.keys
  }

  lemma StepKeys(s: Sys, e: Event)
    ensures KeysChange(s, Step(s, e), e)
  {
    if e.Act? && e.t in s.handlers {
      var h, h' := s.handlers[e.t], Step(s, e).handlers[e.t];
      PcMoves(s, e.t, e.how);
      assert h' == h.(pc := Move(s, e.t, e.how).0);
    }
  }

  lemma KeysKept(s: Sys, s': Sys, e: Event)
    requires KeysExact(s) && KeysChange(s, s', e)
    ensures KeysExact(s')
  {
    forall t, u | t in s'.handlers && u in s'.handlers && s'.handlers[t].Holds() && s'.handlers[u].Holds()
                  && s'.handlers[t].req.Key() == s'.handlers[u].req.Key()
      ensures t == u
    {
      assert t in s.handlers && s.handlers[t].Holds() ==> s.handlers[t].req.Key() in HeldKeys(s);
      assert u in s.handlers && s.handlers[u].Holds() ==> s.handlers[u].req.Key() in HeldKeys(s);
    }
    forall k ensures k in s'.keys <==> k in HeldKeys(s') {
      if k in s'.keys && k in s.keys {
        var u :| u in s.handlers && s.handlers[u].Holds() && s.handlers[u].req.Key() == k;
        assert s'.handlers[u].Holds();
      }
      if k in HeldKeys(s') {
        var u :| u in s'.handlers && s'.handlers[u].Holds() && s'.handlers[u].req.Key() == k;
        assert u in s.handlers && s.handlers[u].Holds() ==> k in HeldKeys(s);
      }
    }
  }

  /** How control moves: a handler leaves Start once, a guarded one returns only through Leaving. */
  lemma PcMoves(s: Sys, t: Tid, how: How)
    requires t in s.handlers
    ensures var h := s.handlers[t]; var pc := Move(s, t, how).0;
      && !pc.Start?
      && (h.Holds() && !h.pc.Leaving? ==> !pc.Returned?)
      && (h.pc.Leaving? || h.pc.Returned? ==> pc.Returned? && pc.reply == h.pc.reply)
      && (h.req.Guarded() && h.pc.Start? && !pc.Returned? ==> h.req.Key() !in s.keys)
  {
    LookMoves(s, t, how);
  }

  lemma LookMoves(s: Sys, t: Tid, how: How)
    requires t in s.handlers
    ensures var h := s.handlers[t]; var pc := Look(h.req, s.cloud, how);
      !pc.Start? && (h.req.Guarded() ==> !pc.Returned?)
  {
  }

  // ----- One volume per name -----

  /** The step makes a handler stop working on its request while something it created is still
      invisible to the by-name lookup. */
  ghost predicate Abandons(s: Sys, e: Event) {
    AbandonsIn(s, Step(s, e), e)
  }

  ghost predicate AbandonsIn(s: Sys, s': Sys, e: Event) {
    && e.Act? && e.t in s.handlers && e.t in s'.handlers
    && s'.handlers[e.t].pc.Leaving?
    && ((exists id :: id in s'.cloud.vols && Unlisted(s'.cloud.vols[id], e.t))
        || (exists id :: id in s'.cloud.snaps && UnlistedSnap(s'.cloud.snaps[id], e.t)))
  }

  predicate Unlisted(v: Vol, t: Tid) {
    v.creator == t && v.Live() && !v.visible
  }

  predicate UnlistedSnap(v: Snap, t: Tid) {
    v.creator == t && v.Live() && !v.visible
  }

  /** No handler ever abandons an invisible object. */
  ghost predicate Careful(s: Sys, es: seq<Event>) {
    forall k | 0 <= k < |es| :: !Abandons(Run(s, es[..k]), es[k])
  }

  /** The handler that created volume `id` is in WaitVolumeBeCreated for it. */
  ghost predicate Awaited(s: Sys, id: string)
    requires id in s.cloud.vols
  {
    var v := s.cloud.vols[id];
    && v.creator in s.handlers
    && s.handlers[v.creator].req.CreateVolume?
    && s.handlers[v.creator].req.name == v.name
    && s.handlers[v.creator].pc == Appearing(id)
  }

  /** The lookup of handler `t` found no volume, and it is about to create one. */
  predicate Creating(h: Handler) { h.req.CreateVolume? && h.pc.Submitting? }

  predicate CreatingSnap(h: Handler) { h.req.CreateSnapshot? && (h.pc.Sourcing? || h.pc.Submitting?) }

  ghost predicate VolNames(s: Sys) {
    && UniqueVols(s.cloud)
    && (forall id | id in s.cloud.vols && s.cloud.vols[id].Live() && !s.cloud.vols[id].visible :: Awaited(s, id))
    && (forall t, id | t in s.handlers && Creating(s.handlers[t]) && id in s.cloud.vols && s.cloud.vols[id].Live()
          :: s.cloud.vols[id].name != s.handlers[t].req.name)
  }

  ghost predicate SnapNames(s: Sys) {
    && UniqueSnaps(s.cloud)
    && (forall id | id in s.cloud.snaps && s.cloud.snaps[id].Live() :: s.cloud.snaps[id].visible)
    && (forall t, id | t in s.handlers && CreatingSnap(s.handlers[t]) && id in s.cloud.snaps && s.cloud.snaps[id].Live()
          :: s.cloud.snaps[id].name != s.handlers[t].req.name)
  }

  /** `v'` is the same volume as `v`, at most listed or gone since. */
  predicate Same(v: Vol, v': Vol) {
    v'.name == v.name && v'.creator == v.creator && (v.visible ==> v'.visible) && (v'.Live() ==> v.Live())
  }

  predicate SameSnap(v: Snap, v': Snap) {
    v'.name == v.name && (v.visible ==> v'.visible) && (v'.Live() ==> v.Live())
  }

  /** What one step does to the volumes: it changes them in place, or a create call adds one. */
  ghost predicate VolsChange(s: Sys, s': Sys, e: Event) {
    var vols, vols' := s.cloud.vols, s'.cloud.vols;
    || (vols'.Keys == vols.Keys && forall id | id in vols :: Same(vols[id], vols'[id]))
    || (&& e.Act? && e.t in s.handlers && e.t in s'.handlers && Creating(s.handlers[e.t]) && !e.how.Fault?
        && e.how.pick !in vols && e.how.pick in vols'
        && vols' == vols[e.how.pick := vols'[e.how.pick]]
        && vols'[e.how.pick].name == s.handlers[e.t].req.name && vols'[e.how.pick].creator == e.t
        && s'.handlers[e.t].pc == if e.how.Go? then Appearing(e.how.pick) else Leaving(Err(Unknown)))
  }

  ghost predicate SnapsChange(s: Sys, s': Sys, e: Event) {
    var snaps, snaps' := s.cloud.snaps, s'.cloud.snaps;
    || (snaps'.Keys == snaps.Keys && forall id | id in snaps :: SameSnap(snaps[id], snaps'[id]))
    || (&& e.Act? && e.t in s.handlers && e.t in s'.handlers
        && s.handlers[e.t].req.CreateSnapshot? && s.handlers[e.t].pc.Submitting? && !e.how.Fault?
        && e.how.pick !in snaps && e.how.pick in snaps'
        && snaps' == snaps[e.how.pick := snaps'[e.how.pick]]
        && snaps'[e.how.pick].name == s.handlers[e.t].req.name && snaps'[e.how.pick].creator == e.t
        && s'.handlers[e.t].pc.Leaving?)
  }

  /** What one step does to the handlers: only the acting one moves, and it decides to create only
      on an empty by-name lookup. */
  ghost predicate HandlersChange(s: Sys, s': Sys, e: Event) {
    && (forall u | u in s.handlers :: u in s'.handlers && s'.handlers[u].req == s.handlers[u].req)
    && (forall u | u in s.handlers && (e.Act? ==> u != e.t) :: s'.handlers[u] == s.handlers[u])
    && (forall u | u in s'.handlers && u !in s.handlers :: s'.handlers[u].pc.Start?)
    && (e.Act? && e.t in s.handlers ==>
          var h, h' := s.handlers[e.t], s'.handlers[e.t];
          && (Creating(h') ==>
                (Creating(h) && s'.cloud == s.cloud) || (h.pc.Looking? && VolumesNamed(s.cloud, h.req.name) == {}))
          && (CreatingSnap(h') ==> CreatingSnap(h) || (h.pc.Looking? && SnapsNamed(s.cloud, h.req.name) == {}))
          && (h.req.CreateVolume? && h.pc.Appearing? ==>
                || h'.pc == h.pc || h'.pc.Leaving?
                || (h.pc.id in s.cloud.vols && s.cloud.vols[h.pc.id].visible)))
  }

  lemma StepVols(s: Sys, e: Event)
    ensures VolsChange(s, Step(s, e), e)
  {
    match e
    case Act(t, how) =>
      if t in s.handlers && s.handlers[t].pc.Submitting? {
        CallVols(s.handlers[t].req, t, s.cloud, how, s.handlers[t].pc.size);
      }
    case _ =>
  }

  lemma CallVols(req: Req, t: Tid, c: Cloud, how: How, size: int)
    ensures var (pc, c') := Submit(req, t, c, how, size);
      || (c'.vols.Keys == c.vols.Keys && forall id | id in c.vols :: Same(c.vols[id], c'.vols[id]))
      || (&& req.CreateVolume? && !how.Fault? && how.pick !in c.vols && how.pick in c'.vols
          && c'.vols == c.vols[how.pick := c'.vols[how.pick]]
          && c'.vols[how.pick].name == req.name && c'.vols[how.pick].creator == t
          && pc == if how.Go? then Appearing(how.pick) else Leaving(Err(Unknown)))
  {
  }

  lemma StepSnaps(s: Sys, e: Event)
    ensures SnapsChange(s, Step(s, e), e)
  {
    match e
    case Act(t, how) =>
      if t in s.handlers && s.handlers[t].pc.Submitting? {
        CallSnaps(s.handlers[t].req, t, s.cloud, how, s.handlers[t].pc.size);
      }
    case _ =>
  }

  lemma CallSnaps(req: Req, t: Tid, c: Cloud, how: How, size: int)
    ensures var (pc, c') := Submit(req, t, c, how, size);
      || (c'.snaps.Keys == c.snaps.Keys && forall id | id in c.snaps :: SameSnap(c.snaps[id], c'.snaps[id]))
      || (&& req.CreateSnapshot? && !how.Fault? && how.pick !in c.snaps && how.pick in c'.snaps
          && c'.snaps == c.snaps[how.pick := c'.snaps[how.pick]]
          && c'.snaps[how.pick].name == req.name && c'.snaps[how.pick].creator == t
          && pc.Leaving?)
  {
  }

  lemma StepHandlers(s: Sys, e: Event)
    ensures HandlersChange(s, Step(s, e), e)
  {
  }

  /** Other handlers stand still. */
  lemma Frame(s: Sys, e: Event)
    ensures forall u | u in s.handlers && (e.Act? ==> u != e.t) ::
              u in Step(s, e).handlers && Step(s, e).handlers[u] == s.handlers[u]
    ensures e.Act? && e.t in s.handlers ==> Step(s, e).handlers[e.t] == s.handlers[e.t].(pc := Move(s, e.t, e.how).0)
  {
  }

  ghost predicate HolderOf(s: Sys, t: Tid, key: string) {
    t in s.handlers && s.handlers[t].Holds() && s.handlers[t].req.Key() == key
  }

  /** A create handler that is not itself waiting for its volume sees every live volume of its name. */
  lemma HolderSees(s: Sys, t: Tid, id: string)
    requires KeysExact(s) && VolNames(s)
    requires t in s.handlers && s.handlers[t].req.CreateVolume? && s.handlers[t].Holds() && !s.handlers[t].pc.Appearing?
    requires id in s.cloud.vols && s.cloud.vols[id].Live() && s.cloud.vols[id].name == s.handlers[t].req.name
    ensures s.cloud.vols[id].visible
  {
    var v := s.cloud.vols[id];
    assert HolderOf(s, t, v.name);
    assert Awaited(s, id) ==> HolderOf(s, v.creator, v.name);
  }

  /** A handler that decided to create, holding the name, is the only one who can. */
  lemma CreatingKept(s: Sys, s': Sys, e: Event, t: Tid, id: string)
    requires KeysExact(s) && VolNames(s) && VolsChange(s, s', e) && HandlersChange(s, s', e)
    requires t in s'.handlers && Creating(s'.handlers[t]) && id in s'.cloud.vols && s'.cloud.vols[id].Live()
    ensures s'.cloud.vols[id].name != s'.handlers[t].req.name
  {
    var name := s'.handlers[t].req.name;
    if e.Act? && e.t == t {
      if id in s.cloud.vols && s.cloud.vols[id].Live() && s.cloud.vols[id].name == name {
        HolderSees(s, t, id);
      }
      assert id in VolumesNamed(s.cloud, name) <==>
               id in s.cloud.vols && s.cloud.vols[id].Listed() && s.cloud.vols[id].name == name;
    } else if id !in s.cloud.vols {
      assert s.handlers[t].Holds() && s.handlers[e.t].Holds();
    }
  }

  lemma VolNamesKept(s: Sys, s': Sys, e: Event)
    requires KeysExact(s) && VolNames(s) && VolsChange(s, s', e) && HandlersChange(s, s', e)
    requires !AbandonsIn(s, s', e)
    ensures VolNames(s')
  {
    forall id | id in s'.cloud.vols && s'.cloud.vols[id].Live() && !s'.cloud.vols[id].visible
      ensures Awaited(s', id)
    {
      assert id in s.cloud.vols ==> Awaited(s, id);
      assert Unlisted(s'.cloud.vols[id], s'.cloud.vols[id].creator);
    }
    forall t, id | t in s'.handlers && Creating(s'.handlers[t]) && id in s'.cloud.vols && s'.cloud.vols[id].Live()
      ensures s'.cloud.vols[id].name != s'.handlers[t].req.name
    {
      CreatingKept(s, s', e, t, id);
    }
  }

  lemma SnapNamesKept(s: Sys, s': Sys, e: Event)
    requires KeysExact(s) && SnapNames(s) && SnapsChange(s, s', e) && HandlersChange(s, s', e)
    requires !AbandonsIn(s, s', e)
    ensures SnapNames(s')
  {
    forall id | id in s'.cloud.snaps && s'.cloud.snaps[id].Live()
      ensures s'.cloud.snaps[id].visible
    {
      if id !in s.cloud.snaps {
        assert UnlistedSnap(s'.cloud.snaps[id], e.t) <==> !s'.cloud.snaps[id].visible;
      }
    }
    forall t, id | t in s'.handlers && CreatingSnap(s'.handlers[t]) && id in s'.cloud.snaps && s'.cloud.snaps[id].Live()
      ensures s'.cloud.snaps[id].name != s'.handlers[t].req.name
    {
      var name := s'.handlers[t].req.name;
      if e.Act? && e.t == t {
        assert id in SnapsNamed(s.cloud, name) <==>
                 id in s.cloud.snaps && s.cloud.snaps[id].Listed() && s.cloud.snaps[id].name == name;
      } else if id !in s.cloud.snaps {
        assert s.handlers[t].Holds() && s.handlers[e.t].Holds();
      }
    }
  }

  // ----- Whole runs -----

  /** In every reachable state the in-flight set is, one to one, the set of held keys. */
  lemma {:induction false} InFlightExact(s: Sys, es: seq<Event>)
    requires Init(s)
    ensures KeysExact(Run(s, es))
  {
    if es == [] {
      assert HeldKeys(s) == {};
    } else {
      InFlightExact(s, es[..|es| - 1]);
      var r, e := Run(s, es[..|es| - 1]), es[|es| - 1];
      StepKeys(r, e);
      KeysKept(r, Step(r, e), e);
    }
  }

  /** When every handler has returned nothing is left in flight. */
  lemma NothingLeftInFlight(s: Sys, es: seq<Event>)
    requires Init(s)
    requires forall t | t in Run(s, es).handlers :: Run(s, es).handlers[t].pc.Returned?
    ensures Run(s, es).keys == {}
  {
    InFlightExact(s, es);
  }

  /** Only the deferred Delete of the very handler that inserted a key releases it, so neither a
      rejected handler nor one working on another object ever does. */
  lemma OnlyHolderReleases(s: Sys, es: seq<Event>, e: Event, key: string, holder: Tid)
    requires Init(s) && HolderOf(Run(s, es), holder, key)
    requires key !in Run(s, es + [e]).keys
    ensures e.Act? && e.t == holder && Run(s, es).handlers[holder].pc.Leaving?
  {
    var r := Run(s, es);
    InFlightExact(s, es);
    assert (es + [e])[..|es|] == es;
    StepKeys(r, e);
    Frame(r, e);
    assert Run(s, es + [e]) == Step(r, e);
    assert (e.Act? && e.t == holder) || HolderOf(Step(r, e), holder, key);
    if e.Act? && e.t == holder {
      PcMoves(r, holder, e.how);
    }
  }

  /** As long as no handler gives up (or returns) on an object the by-name lookup does not list yet,
      no interleaving of creates, deletes, retries and lost replies yields two live volumes or two
      live snapshots of one name. */
  lemma {:induction false} NamesStayUnique(s: Sys, es: seq<Event>)
    requires Init(s) && Careful(s, es)
    ensures UniqueVols(Run(s, es).cloud) && UniqueSnaps(Run(s, es).cloud)
    ensures VolNames(Run(s, es)) && SnapNames(Run(s, es))
  {
    if es != [] {
      var n := |es| - 1;
      forall k | 0 <= k < n ensures !Abandons(Run(s, es[..n][..k]), es[..n][k]) {
        assert es[..n][..k] == es[..k];
        assert es[..n][k] == es[k];
      }
      NamesStayUnique(s, es[..n]);
      InFlightExact(s, es[..n]);
      var r := Run(s, es[..n]);
      StepVols(r, es[n]);
      StepSnaps(r, es[n]);
      StepHandlers(r, es[n]);
      VolNamesKept(r, Step(r, es[n]), es[n]);
      SnapNamesKept(r, Step(r, es[n]), es[n]);
    }
  }

  // ----- The proviso is needed -----

  /** What a create handler past its lookup knows about its own request. */
  predicate Vetted(h: Handler) {
    && (h.Holds() ==> h.req.Valid())
    && (h.req.CreateVolume? && (h.pc.Submitting? || h.pc.Appearing?) ==> h.req.zone != "" && !h.req.source.Unsupported?)
    && (h.req.CreateVolume? && h.pc.Appearing? ==> RoundUpGB(h.req.capacity) >= 1)
  }

  lemma {:induction false} AllVetted(s: Sys, es: seq<Event>)
    requires Init(s)
    ensures forall t | t in Run(s, es).handlers :: Vetted(Run(s, es).handlers[t])
  {
    if es != [] {
      AllVetted(s, es[..|es| - 1]);
      Frame(Run(s, es[..|es| - 1]), es[|es| - 1]);
    }
  }

  lemma LongestName(keys: set<string>) returns (n: nat)
    ensures forall k | k in keys :: |k| <= n
  {
    if keys == {} {
      n := 0;
    } else {
      var k :| k in keys;
      var m := LongestName(keys - {k});
      n := if |k| > m then |k| else m;
      assert keys == keys - {k} + {k};
    }
  }

  lemma FreshString(keys: set<string>) returns (id: string)
    ensures id !in keys && id != ""
  {
    var n := LongestName(keys);
    id := seq(n + 1, _ => 'v');
    assert |id| == n + 1;
  }

  lemma FreshTid(ids: set<Tid>) returns (t: Tid)
    ensures t !in ids && forall k | k in ids :: k < t
  {
    if ids == {} {
      t := 0;
    } else {
      var k :| k in ids;
      var m := FreshTid(ids - {k});
      t := if k >= m then k + 1 else m;
      assert ids == ids - {k} + {k};
    }
  }

  /** A retry of a create whose handler just left: finish, arrive, insert, look up, create. */
  function Retry(t: Tid, u: Tid, req: Req, id: string): seq<Event> {
    [Act(t, Fault), Arrive(u, req), Act(u, Fault), Act(u, Go("", true)), Act(u, Go(id, true))]
  }

  /** The proviso is exact: whenever a create handler gives up on a volume that is still invisible,
      a plain retry of the same request creates a second live volume of that name. */
  lemma GivingUpEarlyDuplicates(s: Sys, es: seq<Event>, e: Event, id: string) returns (u: Tid, id': string)
    requires Init(s) && Careful(s, es)
    requires e.Act? && e.t in Run(s, es).handlers
    requires Step(Run(s, es), e).handlers[e.t].pc.Leaving?
    requires var c := Step(Run(s, es), e).cloud; id in c.vols && Unlisted(c.vols[id], e.t)
    ensures var r := Run(s, es + [e] + Retry(e.t, u, Run(s, es).handlers[e.t].req, id'));
      && id != id' && id in r.cloud.vols && id' in r.cloud.vols
      && r.cloud.vols[id].Live() && r.cloud.vols[id'].Live()
      && r.cloud.vols[id].name == r.cloud.vols[id'].name
  {
    var r := Step(Run(s, es), e);
    AbandonedVolume(s, es, e, id);
    var req := Run(s, es).handlers[e.t].req;
    u := FreshTid(r.handlers.Keys);
    id' := FreshString(r.cloud.vols.Keys);
    assert (es + [e])[..|es|] == es;
    InFlightExact(s, es + [e]);
    RunConcat(s, es + [e], Retry(e.t, u, req, id'));
    RetryDuplicates(r, e.t, u, req, id, id');
  }

  /** What giving up early leaves behind: a vetted request, and its volume as the only live one of
      the name. */
  lemma AbandonedVolume(s: Sys, es: seq<Event>, e: Event, id: string)
    requires Init(s) && Careful(s, es)
    requires e.Act? && e.t in Run(s, es).handlers
    requires Step(Run(s, es), e).handlers[e.t].pc.Leaving?
    requires var c := Step(Run(s, es), e).cloud; id in c.vols && Unlisted(c.vols[id], e.t)
    ensures var req := Run(s, es).handlers[e.t].req; var r := Step(Run(s, es), e);
      && r.handlers[e.t].req == req && Retryable(req)
      && r.cloud.vols[id].name == req.name && VolumesNamed(r.cloud, req.name) == {}
  {
    var r0, r := Run(s, es), Step(Run(s, es), e);
    NamesStayUnique(s, es);
    InFlightExact(s, es);
    AllVetted(s, es);
    StepVols(r0, e);
    StepHandlers(r0, e);
    if Creating(r0.handlers[e.t]) {
      AcceptedIsRetryable(r0, e.t, e.how);
    }
    AbandonedIn(r0, r, e, id);
  }

  lemma AbandonedIn(s: Sys, s': Sys, e: Event, id: string)
    requires VolNames(s) && VolsChange(s, s', e) && HandlersChange(s, s', e)
    requires e.Act? && e.t in s.handlers && Vetted(s.handlers[e.t])
    requires Creating(s.handlers[e.t]) ==> s'.cloud == s.cloud || Retryable(s.handlers[e.t].req)
    requires id in s'.cloud.vols && Unlisted(s'.cloud.vols[id], e.t)
    ensures var req := s.handlers[e.t].req;
      && s'.handlers[e.t].req == req && Retryable(req)
      && s'.cloud.vols[id].name == req.name && VolumesNamed(s'.cloud, req.name) == {}
  {
    assert id in s.cloud.vols ==> Awaited(s, id);
  }

  /** A request the handler and the cloud accept when nothing of its name is listed. */
  predicate Retryable(req: Req) {
    req.CreateVolume? && req.Valid() && req.zone != "" && !req.source.Unsupported? && RoundUpGB(req.capacity) >= 1
  }

  lemma AcceptedIsRetryable(s: Sys, t: Tid, how: How)
    requires t in s.handlers && Vetted(s.handlers[t]) && Creating(s.handlers[t])
    ensures Step(s, Act(t, how)).cloud != s.cloud ==> Retryable(s.handlers[t].req)
  {
  }

  lemma RunOne(s: Sys, a: Event)
    ensures Run(s, [a]) == Step(s, a)
  {
    assert [a][..0] == [];
  }

  lemma RunTwo(s: Sys, a: Event, b: Event)
    ensures Run(s, [a, b]) == Step(Step(s, a), b)
  {
    RunOne(s, a);
    assert [a, b][..1] == [a];
  }

  /** One handler returns, and a retry of its request takes over the key. */
  lemma LeaveAndReturn(s: Sys, t: Tid, u: Tid, req: Req) returns (s': Sys)
    requires KeysExact(s) && req.Valid() && req.Guarded() && !req.DeleteSnapshot?
    requires t in s.handlers && s.handlers[t].pc.Leaving? && s.handlers[t].req == req && u !in s.handlers
    ensures s' == Run(s, [Act(t, Fault), Arrive(u, req), Act(u, Fault)])
    ensures u in s'.handlers && s'.handlers[u] == Handler(req, Looking) && s'.cloud == s.cloud
  {
    assert HolderOf(s, t, req.Key());
    var s1 := Step(s, Act(t, Fault));
    assert req.Key() !in s1.keys;
    var s2 := Step(s1, Arrive(u, req));
    assert s2.handlers[u] == Handler(req, Start) && s2.keys == s1.keys;
    s' := Step(s2, Act(u, Fault));
    RunTwo(s, Act(t, Fault), Arrive(u, req));
    assert [Act(t, Fault), Arrive(u, req), Act(u, Fault)][..2] == [Act(t, Fault), Arrive(u, req)];
  }

  lemma LookFindsNone(s: Sys, u: Tid, req: Req)
    requires u in s.handlers && s.handlers[u] == Handler(req, Looking)
    requires Retryable(req) && VolumesNamed(s.cloud, req.name) == {}
    ensures Step(s, Act(u, Go("", true))) == s.(handlers := s.handlers[u := Handler(req, Submitting(0))])
  {
  }

  lemma SubmitCreates(s: Sys, u: Tid, req: Req, id: string)
    requires u in s.handlers && s.handlers[u] == Handler(req, Submitting(0))
    requires Retryable(req) && id !in s.cloud.vols && id != ""
    ensures Step(s, Act(u, Go(id, true))).cloud.vols
         == s.cloud.vols[id := Vol(req.name, u, true, CloudStatus.Creating, RoundUpGB(req.capacity), "", req.zone, req.vtype,
                                   req.source.SnapshotID())]
  {
  }

  /** The retry's five steps. */
  lemma RetryDuplicates(s: Sys, t: Tid, u: Tid, req: Req, id: string, id': string)
    requires KeysExact(s) && Retryable(req)
    requires t in s.handlers && s.handlers[t].pc.Leaving? && s.handlers[t].req == req
    requires u !in s.handlers && id' !in s.cloud.vols && id' != ""
    requires id in s.cloud.vols && VolumesNamed(s.cloud, req.name) == {}
    ensures var r := Run(s, Retry(t, u, req, id'));
      && id in r.cloud.vols && id' in r.cloud.vols
      && r.cloud.vols[id] == s.cloud.vols[id] && r.cloud.vols[id'].Live()
      && r.cloud.vols[id'].name == req.name
  {
    var look, create := Act(u, Go("", true)), Act(u, Go(id', true));
    var s3 := LeaveAndReturn(s, t, u, req);
    LookFindsNone(s3, u, req);
    SubmitCreates(Step(s3, look), u, req, id');
    RunTwo(s3, look, create);
    RunConcat(s, [Act(t, Fault), Arrive(u, req), Act(u, Fault)], [look, create]);
    assert Retry(t, u, req, id') == [Act(t, Fault), Arrive(u, req), Act(u, Fault)] + [look, create];
  }

  /** For snapshots the proviso is exact too.  CreateSnapshot returns without waiting: whenever it leaves,
      with OK or with its reply lost, while the snapshot it created is not listed yet, a plain retry
      creates a second live snapshot of that name. */
  lemma UnlistedSnapshotDuplicates(s: Sys, es: seq<Event>, e: Event, id: string) returns (u: Tid, id': string)
    requires Init(s) && Careful(s, es)
    requires e.Act? && e.t in Run(s, es).handlers
    requires Step(Run(s, es), e).handlers[e.t].pc.Leaving?
    requires var c := Step(Run(s, es), e).cloud; id in c.snaps && UnlistedSnap(c.snaps[id], e.t)
    ensures var r := Run(s, es + [e] + SnapshotRetry(e.t, u, Run(s, es).handlers[e.t].req, id'));
      && id != id' && id in r.cloud.snaps && id' in r.cloud.snaps
      && r.cloud.snaps[id].Live() && r.cloud.snaps[id'].Live()
      && r.cloud.snaps[id].name == r.cloud.snaps[id'].name
  {
    var req := Run(s, es).handlers[e.t].req;
    var r := Step(Run(s, es), e);
    UnlistedSnapshot(s, es, e, id);
    u := FreshTid(r.handlers.Keys);
    id' := FreshString(r.cloud.snaps.Keys);
    assert (es + [e])[..|es|] == es;
    InFlightExact(s, es + [e]);
    RunConcat(s, es + [e], SnapshotRetry(e.t, u, req, id'));
    SnapshotRetryRuns(r, e.t, u, req, id');
  }

  lemma UnlistedSnapshot(s: Sys, es: seq<Event>, e: Event, id: string)
    requires Init(s) && Careful(s, es)
    requires e.Act? && e.t in Run(s, es).handlers
    requires Step(Run(s, es), e).handlers[e.t].pc.Leaving?
    requires var c := Step(Run(s, es), e).cloud; id in c.snaps && UnlistedSnap(c.snaps[id], e.t)
    ensures var req := Run(s, es).handlers[e.t].req; var r := Step(Run(s, es), e);
      && r.handlers[e.t].req == req && req.CreateSnapshot? && req.Valid()
      && r.cloud.snaps[id].name == req.name
      && SnapsNamed(r.cloud, req.name) == {} && VolumeById(r.cloud, req.id).Found?
  {
    hide Step, Run;
    var r0 := Run(s, es);
    NamesStayUnique(s, es);
    AllVetted(s, es);
    StepSnaps(r0, e);
    StepHandlers(r0, e);
    NewlyUnlisted(r0, Step(r0, e), e, id);
    SubmitStep(r0, e.t, e.how);
    AcceptedSnapshot(r0, Step(r0, e), e.t, e.how, id);
  }

  /** An unlisted snapshot was created in this very step. */
  lemma NewlyUnlisted(s: Sys, s': Sys, e: Event, id: string)
    requires SnapNames(s) && SnapsChange(s, s', e) && e.Act?
    requires id in s'.cloud.snaps && UnlistedSnap(s'.cloud.snaps[id], e.t)
    ensures e.t in s.handlers && s.handlers[e.t].req.CreateSnapshot? && s.handlers[e.t].pc.Submitting? && !e.how.Fault?
  {
  }

  lemma SubmitStep(s: Sys, t: Tid, how: How)
    requires t in s.handlers && s.handlers[t].pc.Submitting?
    ensures var (pc, c) := Submit(s.handlers[t].req, t, s.cloud, how, s.handlers[t].pc.size);
      && Step(s, Act(t, how)).cloud == c
      && t in Step(s, Act(t, how)).handlers
      && Step(s, Act(t, how)).handlers[t] == s.handlers[t].(pc := pc)
  {
  }

  lemma AcceptedSnapshot(s: Sys, s': Sys, t: Tid, how: How, id: string)
    requires SnapNames(s) && !how.Fault?
    requires t in s.handlers && s.handlers[t].req.CreateSnapshot? && s.handlers[t].pc.Submitting?
    requires s'.cloud == Submit(s.handlers[t].req, t, s.cloud, how, s.handlers[t].pc.size).1
    requires id in s'.cloud.snaps && UnlistedSnap(s'.cloud.snaps[id], t)
    ensures var req := s.handlers[t].req;
      && s'.cloud.snaps[id].name == req.name
      && SnapsNamed(s'.cloud, req.name) == {} && VolumeById(s'.cloud, req.id).Found?
  {
    assert s'.cloud.vols == s.cloud.vols;
    assert forall i | i in s.cloud.snaps :: i in s'.cloud.snaps && s'.cloud.snaps[i] == s.cloud.snaps[i];
  }

  /** The proviso as a whole is exact: the first step that abandons an unlisted object has a continuation
      with two live volumes or two live snapshots of one name. */
  lemma CarefulIsExact(s: Sys, es: seq<Event>, e: Event) returns (more: seq<Event>)
    requires Init(s) && Careful(s, es) && Abandons(Run(s, es), e)
    ensures var c := Run(s, es + [e] + more).cloud; !UniqueVols(c) || !UniqueSnaps(c)
  {
    hide Step, Run, Careful, SnapshotRetry, Retry;
    var r := Run(s, es);
    var r' := Step(r, e);
    if exists id :: id in r'.cloud.vols && Unlisted(r'.cloud.vols[id], e.t) {
      var id :| id in r'.cloud.vols && Unlisted(r'.cloud.vols[id], e.t);
      var u, id' := GivingUpEarlyDuplicates(s, es, e, id);
      more := Retry(e.t, u, r.handlers[e.t].req, id');
    } else {
      var id :| id in r'.cloud.snaps && UnlistedSnap(r'.cloud.snaps[id], e.t);
      var u, id' := UnlistedSnapshotDuplicates(s, es, e, id);
      more := SnapshotRetry(e.t, u, r.handlers[e.t].req, id');
    }
  }

  function SnapshotRetry(t: Tid, u: Tid, req: Req, id: string): seq<Event> {
    [Act(t, Fault), Arrive(u, req), Act(u, Fault), Act(u, Go("", true)), Act(u, Go("", true)), Act(u, Go(id, true))]
  }

  lemma SnapLooks(s: Sys, u: Tid, req: Req)
    requires u in s.handlers && s.handlers[u] == Handler(req, Looking) && req.CreateSnapshot?
    requires SnapsNamed(s.cloud, req.name) == {}
    ensures Step(s, Act(u, Go("", true))) == s.(handlers := s.handlers[u := Handler(req, Sourcing)])
  {
  }

  lemma SnapSources(s: Sys, u: Tid, req: Req) returns (size: int)
    requires u in s.handlers && s.handlers[u] == Handler(req, Sourcing) && req.CreateSnapshot?
    requires VolumeById(s.cloud, req.id).Found?
    ensures Step(s, Act(u, Go("", true))) == s.(handlers := s.handlers[u := Handler(req, Submitting(size))])
  {
    size := VolumeById(s.cloud, req.id).volume.capacity;
  }

  lemma SnapCreates(s: Sys, u: Tid, req: Req, size: int, id: string)
    requires u in s.handlers && s.handlers[u] == Handler(req, Submitting(size)) && req.CreateSnapshot?
    requires VolumeById(s.cloud, req.id).Found? && id !in s.cloud.snaps && id != ""
    ensures Step(s, Act(u, Go(id, true))).cloud.snaps
         == s.cloud.snaps[id := Snap(req.name, u, true, false, req.id, s.cloud.vols[req.id].sizeGB)]
  {
  }

  lemma SnapshotRetryRuns(s: Sys, t: Tid, u: Tid, req: Req, id': string)
    requires KeysExact(s) && req.CreateSnapshot? && req.Valid()
    requires t in s.handlers && s.handlers[t].pc.Leaving? && s.handlers[t].req == req
    requires u !in s.handlers && id' !in s.cloud.snaps && id' != ""
    requires SnapsNamed(s.cloud, req.name) == {} && VolumeById(s.cloud, req.id).Found?
    ensures Run(s, SnapshotRetry(t, u, req, id')).cloud.snaps
         == s.cloud.snaps[id' := Snap(req.name, u, true, false, req.id, s.cloud.vols[req.id].sizeGB)]
  {
    var look, create := Act(u, Go("", true)), Act(u, Go(id', true));
    var s3 := LeaveAndReturn(s, t, u, req);
    SnapLooks(s3, u, req);
    var size := SnapSources(Step(s3, look), u, req);
    SnapCreates(Step(Step(s3, look), look), u, req, size, id');
    RunTwo(s3, look, look);
    RunOne(Step(Step(s3, look), look), create);
    RunConcat(s3, [look, look], [create]);
    RunConcat(s, [Act(t, Fault), Arrive(u, req), Act(u, Fault)], [look, look] + [create]);
    assert SnapshotRetry(t, u, req, id')
        == [Act(t, Fault), Arrive(u, req), Act(u, Fault)] + ([look, look] + [create]);
  }
}
