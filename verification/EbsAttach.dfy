/** Attachments: who can detach a volume, and how many volumes a node can end up with. */
module EbsAttach {
  import opened EbsTypes
  import opened EbsProtocol
  import opened EbsOutcomes
  import opened Sets

  // ----- A stale unpublish detaches nothing -----

  /** The volume belongs to the node and is not on its way off it. */
  predicate AttachedTo(c: Cloud, id: string, node: string) {
    && node != "" && id in c.vols && c.vols[id].node == node
    && c.vols[id].status.HoldsNode() && !c.vols[id].status.Detaching?
  }

  lemma CallKeepsAttachment(req: Req, t: Tid, c: Cloud, how: How, size: int, id: string, node: string)
    requires AttachedTo(c, id, node) && req != Unpublish(id, node)
    ensures AttachedTo(Submit(req, t, c, how, size).1, id, node)
  {
  }

  /** The step makes the detach call of an unpublish that names this volume and this node. */
  predicate Detaches(s: Sys, e: Event, id: string, node: string) {
    && e.Act? && e.t in s.handlers && s.handlers[e.t].req == Unpublish(id, node)
    && s.handlers[e.t].pc.Submitting? && !e.how.Fault?
  }

  lemma StepKeepsAttachment(s: Sys, e: Event, id: string, node: string)
    requires AttachedTo(s.cloud, id, node) && !Detaches(s, e, id, node)
    ensures AttachedTo(Step(s, e).cloud, id, node)
  {
    match e
    case Act(t, how) =>
      if t in s.handlers && s.handlers[t].pc.Submitting? && s.handlers[t].req != Unpublish(id, node) {
        CallKeepsAttachment(s.handlers[t].req, t, s.cloud, how, s.handlers[t].pc.size, id, node);
      }
    case _ =>
  }

  /** Step `k` of the run detaches the volume from the node. */
  ghost predicate DetachedAt(s: Sys, es: seq<Event>, k: nat, id: string, node: string)
    requires k < |es|
  {
    && AttachedTo(Run(s, es[..k]).cloud, id, node)
    && !AttachedTo(Run(s, es[..k + 1]).cloud, id, node)
    && Detaches(Run(s, es[..k]), es[k], id, node)
  }

  /** Whatever else runs, an attachment (id, node) ends only in the detach call of an unpublish that names
      both: an unpublish for another node, however stale its lookup, never detaches the volume. */
  lemma {:induction false} OnlyItsUnpublishDetaches(s: Sys, es: seq<Event>, id: string, node: string)
    requires AttachedTo(s.cloud, id, node) && !AttachedTo(Run(s, es).cloud, id, node)
    ensures exists k | 0 <= k < |es| :: DetachedAt(s, es, k, id, node)
  {
    hide AttachedTo, Step, Detaches;
    var n := |es| - 1;
    assert es[..n + 1] == es;
    if AttachedTo(Run(s, es[..n]).cloud, id, node) {
      if !Detaches(Run(s, es[..n]), es[n], id, node) {
        StepKeepsAttachment(Run(s, es[..n]), es[n], id, node);
      }
      assert DetachedAt(s, es, n, id, node);
    } else {
      OnlyItsUnpublishDetaches(s, es[..n], id, node);
      var k :| 0 <= k < n && DetachedAt(s, es[..n], k, id, node);
      assert es[..n][..k] == es[..k] && es[..n][..k + 1] == es[..k + 1];
      assert DetachedAt(s, es, k, id, node);
    }
  }

  // ----- The per-node limit -----

  /** The publish requests for the node that have not returned. */
  function Publishing(s: Sys, node: string): set<Tid> {
    set t | t in s.handlers && s.handlers[t].req.Publish? && s.handlers[t].req.node == node && !s.handlers[t].pc.Returned?
  }

  /** Those that have passed the count and not yet called attach. */
  function Admitted(s: Sys, node: string): set<Tid> {
    set t | t in s.handlers && s.handlers[t].req.Publish? && s.handlers[t].req.node == node && s.handlers[t].pc.Submitting?
  }

  /** Never more than `k` publish requests for the node at once. */
  ghost predicate AtMost(s: Sys, es: seq<Event>, node: string, k: nat) {
    forall i | 0 <= i <= |es| :: |Publishing(Run(s, es[..i]), node)| <= k
  }

  /** What one step does to the node's volumes and to the admitted requests. */
  ghost predicate NodeChange(s: Sys, s': Sys, e: Event, node: string) {
    || (OnNode(s'.cloud, node) <= OnNode(s.cloud, node) && Admitted(s', node) <= Admitted(s, node))
    || (&& e.Act? && e.t in Publishing(s, node) && e.t !in Admitted(s, node)
        && Admitted(s', node) == Admitted(s, node) + {e.t}
        && OnNode(s'.cloud, node) == OnNode(s.cloud, node) && |OnNode(s.cloud, node)| < s.max)
    || (&& e.Act? && e.t in Admitted(s, node)
        && Admitted(s', node) == Admitted(s, node) - {e.t}
        && OnNode(s'.cloud, node) <= OnNode(s.cloud, node) + {s.handlers[e.t].req.id})
  }

  lemma CallOnNode(req: Req, t: Tid, c: Cloud, how: How, size: int, node: string)
    requires CloudOk(c) && node != ""
    ensures var c' := Submit(req, t, c, how, size).1;
      if req.Publish? && req.node == node then OnNode(c', node) <= OnNode(c, node) + {req.id}
      else OnNode(c', node) == OnNode(c, node)
  {
    var c' := Submit(req, t, c, how, size).1;
    forall id | id in OnNode(c, node)
      ensures id in OnNode(c', node)
    {
      assert c.vols[id].status.HoldsNode();
    }
  }

  /** A handler's own move, as far as a node's limit is concerned. */
  ghost predicate ActChange(s: Sys, s': Sys, t: Tid, node: string) {
    && t in s.handlers && s'.handlers.Keys == s.handlers.Keys
    && (forall u | u in s.handlers && u != t :: s'.handlers[u] == s.handlers[u])
    && var h, h' := s.handlers[t], s'.handlers[t];
    && h'.req == h.req
    && if h.req.Publish? && h.req.node == node then
         if h.pc.Submitting? then !h'.pc.Submitting? && OnNode(s'.cloud, node) <= OnNode(s.cloud, node) + {h.req.id}
         else
           && OnNode(s'.cloud, node) == OnNode(s.cloud, node)
           && (h'.pc.Submitting? ==> !h.pc.Returned? && |OnNode(s.cloud, node)| < s.max)
       else OnNode(s'.cloud, node) == OnNode(s.cloud, node)
  }

  lemma ActChanges(s: Sys, t: Tid, how: How, node: string)
    requires CloudOk(s.cloud) && node != "" && t in s.handlers
    ensures ActChange(s, Step(s, Act(t, how)), t, node)
  {
    hide Describe, StatusVerdict, LookSource, RoundUpGB, Wrap64, Call;
    var h := s.handlers[t];
    match h.pc
    case Submitting(size) => CallOnNode(h.req, t, s.cloud, how, size, node);
    case Looking => assert h.req.Publish? ==> !Look(h.req, s.cloud, how).Submitting?;
    case _ =>
  }

  lemma ActNode(s: Sys, s': Sys, t: Tid, how: How, node: string)
    requires ActChange(s, s', t, node)
    ensures NodeChange(s, s', Act(t, how), node)
  {
    var h, h' := s.handlers[t], s'.handlers[t];
    if h.req.Publish? && h.req.node == node {
      if h.pc.Submitting? {
        assert Admitted(s', node) == Admitted(s, node) - {t};
      } else if h'.pc.Submitting? {
        assert Admitted(s', node) == Admitted(s, node) + {t};
      } else {
        assert Admitted(s', node) == Admitted(s, node);
      }
    } else {
      assert Admitted(s', node) == Admitted(s, node);
    }
  }

  lemma StepNode(s: Sys, e: Event, node: string)
    requires CloudOk(s.cloud) && node != ""
    ensures NodeChange(s, Step(s, e), e, node)
  {
    match e
    case Act(t, how) =>
      if t in s.handlers {
        ActChanges(s, t, how, node);
        ActNode(s, Step(s, e), t, how, node);
      }
    case _ =>
      assert forall u | u in s.handlers :: Step(s, e).handlers[u] == s.handlers[u];
      assert Admitted(Step(s, e), node) <= Admitted(s, node);
      assert OnNode(Step(s, e).cloud, node) <= OnNode(s.cloud, node);
  }

  lemma LimitKept(s: Sys, s': Sys, e: Event, node: string, k: nat)
    requires NodeChange(s, s', e, node) && |Publishing(s, node)| <= k
    requires |OnNode(s.cloud, node)| + |Admitted(s, node)| <= s.max - 1 + k && s'.max == s.max
    ensures |OnNode(s'.cloud, node)| + |Admitted(s', node)| <= s'.max - 1 + k
  {
    if e.Act? && e.t in Publishing(s, node) && e.t !in Admitted(s, node) {
      SubsetSize(Admitted(s, node) + {e.t}, Publishing(s, node));
    }
    if OnNode(s'.cloud, node) <= OnNode(s.cloud, node) && Admitted(s', node) <= Admitted(s, node) {
      SubsetSize(OnNode(s'.cloud, node), OnNode(s.cloud, node));
      SubsetSize(Admitted(s', node), Admitted(s, node));
    } else if e.Act? && e.t in Admitted(s, node) {
      SubsetSize(OnNode(s'.cloud, node), OnNode(s.cloud, node) + {s.handlers[e.t].req.id});
    }
  }

  /** The count check and the attach are separate steps, so with up to `k` publish requests for a
      node at once the node's volumes stay within maxVolumesPerNode - 1 + k; alone (k = 1), a
      publish never exceeds the maximum. */
  lemma {:induction false} NodeLimit(s: Sys, es: seq<Event>, node: string, k: nat)
    requires Init(s) && node != "" && AtMost(s, es, node, k)
    requires |OnNode(s.cloud, node)| <= s.max - 1 + k
    ensures var r := Run(s, es); r.max == s.max && |OnNode(r.cloud, node)| + |Admitted(r, node)| <= s.max - 1 + k
  {
    if es == [] {
      assert Admitted(s, node) == {};
    } else {
      var n := |es| - 1;
      forall i | 0 <= i <= n ensures |Publishing(Run(s, es[..n][..i]), node)| <= k {
        assert es[..n][..i] == es[..i];
      }
      NodeLimit(s, es[..n], node, k);
      InitSound(s);
      RunSound(s, es[..n]);
      LimitStep(Run(s, es[..n]), es[n], node, k);
    }
  }

  lemma LimitStep(s: Sys, e: Event, node: string, k: nat)
    requires CloudOk(s.cloud) && node != "" && |Publishing(s, node)| <= k
    requires |OnNode(s.cloud, node)| + |Admitted(s, node)| <= s.max - 1 + k
    ensures var s' := Step(s, e); s'.max == s.max && |OnNode(s'.cloud, node)| + |Admitted(s', node)| <= s.max - 1 + k
  {
    StepNode(s, e, node);
    var s' := Step(s, e);
    assert s'.max == s.max;
    LimitKept(s, s', e, node, k);
  }

  // ----- The limit is tight -----

  /** Volume ids of distinct lengths. */
  function Id(i: nat): (id: string)
    ensures |id| == i + 1
  {
    seq(i + 1, _ => 'v')
  }

  /** `n` volumes, the first `max - 1` of them on the node and the others available. */
  function Fleet(max: nat, n: nat, node: string): map<string, Vol> {
    if n == 0 then map[] else
      Fleet(max, n - 1, node)[Id(n - 1) :=
        if n < max then Vol(Id(n - 1), 0, true, Attached, 20, node, "z", "t", "")
        else Vol(Id(n - 1), 0, true, Available, 20, "", "z", "t", "")]
  }

  lemma {:induction false} FleetShape(max: nat, n: nat, node: string)
    requires max >= 1 && node != ""
    ensures var vols := Fleet(max, n, node);
      && (forall id | id in vols :: |id| <= n && vols[id].name == id && VolOk(vols[id]) && vols[id].visible)
      && (forall i: nat | max - 1 <= i < n :: Id(i) in vols && vols[Id(i)].status.Available? && vols[Id(i)].node == "")
  {
    if n > 0 {
      FleetShape(max, n - 1, node);
      assert forall i: nat | i < n - 1 :: Id(i) != Id(n - 1);
    }
  }

  lemma {:induction false} FleetOnNode(max: nat, n: nat, node: string)
    requires max >= 1 && node != ""
    ensures |OnNode(Cloud(Fleet(max, n, node), map[]), node)| == if n < max then n else max - 1
  {
    if n == 0 {
      assert OnNode(Cloud(map[], map[]), node) == {};
    } else {
      FleetOnNode(max, n - 1, node);
      FleetShape(max, n - 1, node);
      var was := Fleet(max, n - 1, node);
      assert Id(n - 1) !in was;
      AddVol(was, Id(n - 1), Fleet(max, n, node)[Id(n - 1)], node);
    }
  }

  lemma AddVol(vols: map<string, Vol>, id: string, v: Vol, node: string)
    requires id !in vols
    ensures |OnNode(Cloud(vols[id := v], map[]), node)|
         == |OnNode(Cloud(vols, map[]), node)| + if v.node == node then 1 else 0
  {
    var was, now := OnNode(Cloud(vols, map[]), node), OnNode(Cloud(vols[id := v], map[]), node);
    assert id !in was;
    assert now == if v.node == node then was + {id} else was;
  }

  function Wants(max: nat, t: nat, node: string): Req
    requires max >= 1
  {
    Publish(Id(max - 1 + t), node, true)
  }

  predicate Ready(c: Cloud, req: Req)
    requires req.Publish?
  {
    CanAttach(c, req.id) && req.id !in OnNode(c, req.node)
  }

  /** `a` of `k` requests are past the count, and the first `j` of them have called attach. */
  ghost predicate Crowd(s: Sys, max: nat, k: nat, a: nat, j: nat, node: string)
    requires max >= 1
  {
    && s.max == max && |OnNode(s.cloud, node)| == max - 1 + j
    && (forall t: nat | j <= t < k :: Ready(s.cloud, Wants(max, t, node)))
    && (forall t | t in s.handlers :: t < a)
    && (forall t | j <= t < a :: t in s.handlers && s.handlers[t] == Handler(Wants(max, t, node), Submitting(0)))
  }

  /** A publish request arrives, is validated, finds its volume available and passes the count. */
  function Admission(t: nat, req: Req): seq<Event> {
    [Arrive(t, req), Act(t, Fault)] + [Act(t, Go("", true)), Act(t, Go("", true))]
  }

  function AtPc(s: Sys, t: Tid, req: Req, pc: PC): Sys {
    s.(handlers := s.handlers[t := Handler(req, pc)])
  }

  lemma Enters(s: Sys, t: Tid, req: Req)
    requires t !in s.handlers && req.Publish? && req.Valid()
    ensures Run(s, [Arrive(t, req), Act(t, Fault)]) == AtPc(s, t, req, Looking)
  {
    assert [Arrive(t, req), Act(t, Fault)][..1] == [Arrive(t, req)] && [Arrive(t, req)][..0] == [];
    assert Run(s, [Arrive(t, req)]) == AtPc(s, t, req, Start);
    assert Step(AtPc(s, t, req, Start), Act(t, Fault)) == AtPc(s, t, req, Looking);
  }

  lemma Looks(s: Sys, t: Tid, req: Req)
    requires t in s.handlers && s.handlers[t] == Handler(req, Looking) && req.Publish? && CanAttach(s.cloud, req.id)
    ensures Step(s, Act(t, Go("", true))) == AtPc(s, t, req, Counting)
  {
  }

  lemma Counts(s: Sys, t: Tid, req: Req)
    requires t in s.handlers && s.handlers[t] == Handler(req, Counting) && req.Publish?
    requires |OnNode(s.cloud, req.node)| < s.max
    ensures Step(s, Act(t, Go("", true))) == AtPc(s, t, req, Submitting(0))
  {
  }

  lemma CallsAttach(s: Sys, t: Tid, req: Req)
    requires t in s.handlers && s.handlers[t] == Handler(req, Submitting(0)) && req.Publish? && CanAttach(s.cloud, req.id)
    ensures Step(s, Act(t, Go("", true))) ==
              AtPc(SetVol(s, req.id, s.cloud.vols[req.id].(status := Attaching, node := req.node)),
                   t, req, Settling(req.id))
  {
  }

  lemma Admits(s: Sys, t: Tid, req: Req)
    requires t !in s.handlers && req.Publish? && req.Valid()
    requires CanAttach(s.cloud, req.id) && |OnNode(s.cloud, req.node)| < s.max
    ensures Run(s, Admission(t, req)) == AtPc(s, t, req, Submitting(0))
  {
    var go := Act(t, Go("", true));
    var s2, s3 := AtPc(s, t, req, Looking), AtPc(s, t, req, Counting);
    Enters(s, t, req);
    Looks(s2, t, req);
    assert AtPc(s2, t, req, Counting) == s3;
    Counts(s3, t, req);
    assert [go, go][..1] == [go] && [go][..0] == [];
    assert Run(s2, [go]) == s3;
    RunConcat(s, [Arrive(t, req), Act(t, Fault)], [go, go]);
  }

  /** `k` requests are admitted one after the other. */
  function Admissions(max: nat, k: nat, node: string): seq<Event>
    requires max >= 1
  {
    if k == 0 then [] else Admissions(max, k - 1, node) + Admission(k - 1, Wants(max, k - 1, node))
  }

  /** Then all of them call attach. */
  function Attaches(k: nat): seq<Event> {
    if k == 0 then [] else Attaches(k - 1) + [Act(k - 1, Go("", true))]
  }

  lemma AdmitOne(s: Sys, max: nat, k: nat, a: nat, node: string)
    requires max >= 1 && a < k && node != "" && Crowd(s, max, k, a, 0, node)
    ensures var r := Run(s, Admission(a, Wants(max, a, node)));
      r == AtPc(s, a, Wants(max, a, node), Submitting(0)) && Crowd(r, max, k, a + 1, 0, node)
  {
    var req := Wants(max, a, node);
    assert Ready(s.cloud, req);
    Admits(s, a, req);
    Admitting(s, AtPc(s, a, req, Submitting(0)), max, k, a, node);
  }

  lemma Admitting(s: Sys, s': Sys, max: nat, k: nat, a: nat, node: string)
    requires max >= 1 && a < k && Crowd(s, max, k, a, 0, node)
    requires s' == AtPc(s, a, Wants(max, a, node), Submitting(0))
    ensures Crowd(s', max, k, a + 1, 0, node)
  {
  }

  lemma AdmissionsNext(s: Sys, max: nat, a: nat, node: string)
    requires max >= 1
    ensures Admissions(max, a + 1, node) == Admissions(max, a, node) + Admission(a, Wants(max, a, node))
    ensures Run(s, Admissions(max, 0, node)) == s
  {
  }

  lemma {:induction false} AdmitAll(s: Sys, max: nat, k: nat, a: nat, node: string) returns (r: Sys)
    requires max >= 1 && a <= k && node != "" && Crowd(s, max, k, 0, 0, node)
    ensures r == Run(s, Admissions(max, a, node)) && Crowd(r, max, k, a, 0, node)
  {
    hide *;
    if a == 0 {
      AdmissionsNext(s, max, 0, node);
      r := s;
    } else {
      var was := AdmitAll(s, max, k, a - 1, node);
      var es := Admission(a - 1, Wants(max, a - 1, node));
      AdmitOne(was, max, k, a - 1, node);
      AdmissionsNext(s, max, a - 1, node);
      RunConcat(s, Admissions(max, a - 1, node), es);
      r := Run(was, es);
    }
  }

  lemma AttachOne(s: Sys, max: nat, k: nat, j: nat, node: string)
    requires max >= 1 && j < k && node != "" && Crowd(s, max, k, k, j, node)
    ensures Crowd(Step(s, Act(j, Go("", true))), max, k, k, j + 1, node)
  {
    var req := Wants(max, j, node);
    assert Ready(s.cloud, req);
    CallsAttach(s, j, req);
    var s' := Step(s, Act(j, Go("", true)));
    assert OnNode(s'.cloud, node) == OnNode(s.cloud, node) + {req.id};
    forall t: nat | j < t < k
      ensures Ready(s'.cloud, Wants(max, t, node))
    {
      assert |Wants(max, t, node).id| != |req.id|;
      assert Ready(s.cloud, Wants(max, t, node));
    }
  }

  lemma AttachesNext(s: Sys, j: nat)
    ensures Attaches(j + 1) == Attaches(j) + [Act(j, Go("", true))]
    ensures Run(s, Attaches(0)) == s
  {
  }

  lemma {:induction false} AttachAll(s: Sys, max: nat, k: nat, j: nat, node: string) returns (r: Sys)
    requires max >= 1 && j <= k && node != "" && Crowd(s, max, k, k, 0, node)
    ensures r == Run(s, Attaches(j)) && Crowd(r, max, k, k, j, node)
  {
    hide *;
    if j == 0 {
      AttachesNext(s, 0);
      r := s;
    } else {
      var was := AttachAll(s, max, k, j - 1, node);
      var e := Act(j - 1, Go("", true));
      AttachOne(was, max, k, j - 1, node);
      AttachesNext(s, j - 1);
      RunConcat(s, Attaches(j - 1), [e]);
      RunLast(was, e);
      r := Step(was, e);
    }
  }

  lemma RunLast(s: Sys, e: Event)
    ensures Run(s, [e]) == Step(s, e)
  {
    assert [e][..0] == [];
  }

  /** Only the first `k` handlers ever exist. */
  predicate OnlyBelow(es: seq<Event>, k: nat) {
    forall i | 0 <= i < |es| :: es[i].Arrive? ==> es[i].t < k
  }

  lemma {:induction false} FewHandlers(s: Sys, es: seq<Event>, k: nat)
    requires s.handlers == map[] && OnlyBelow(es, k)
    ensures Run(s, es).handlers.Keys <= Below(k)
  {
    if es != [] {
      FewHandlers(s, es[..|es| - 1], k);
      assert es[|es| - 1].Arrive? ==> es[|es| - 1].t < k;
    }
  }

  lemma {:induction false} AdmissionsBelow(max: nat, j: nat, k: nat, node: string)
    requires max >= 1 && j <= k
    ensures OnlyBelow(Admissions(max, j, node), k)
  {
    if j > 0 {
      AdmissionsBelow(max, j - 1, k, node);
    }
  }

  lemma {:induction false} AttachesBelow(j: nat, k: nat)
    ensures OnlyBelow(Attaches(j), k)
  {
    if j > 0 {
      AttachesBelow(j - 1, k);
    }
  }

  /** The bound is reached: for every maximum, every node and every k there is a run with at most k
      publish requests for the node at once that ends with maxVolumesPerNode - 1 + k volumes on it. */
  lemma NodeLimitTight(max: nat, k: nat, node: string) returns (s: Sys, es: seq<Event>)
    requires max >= 1 && node != ""
    ensures Init(s) && s.max == max && |OnNode(s.cloud, node)| == max - 1
    ensures AtMost(s, es, node, k)
    ensures |OnNode(Run(s, es).cloud, node)| == max - 1 + k
  {
    hide Step, Run, Crowd, Admissions, Attaches, OnNode, AtMost;
    s := StartOfCrowd(max, k, node);
    es := Admissions(max, k, node) + Attaches(k);
    var full := AdmitAll(s, max, k, k, node);
    var end := AttachAll(full, max, k, k, node);
    RunConcat(s, Admissions(max, k, node), Attaches(k));
    AdmissionsBelow(max, k, k, node);
    AttachesBelow(k, k);
    CrowdOnNode(end, max, k, node);
    assert OnlyBelow(es, k);
    AtMostBelow(s, es, node, k);
  }

  lemma CrowdOnNode(s: Sys, max: nat, k: nat, node: string)
    requires max >= 1 && Crowd(s, max, k, k, k, node)
    ensures |OnNode(s.cloud, node)| == max - 1 + k
  {
  }

  lemma StartOfCrowd(max: nat, k: nat, node: string) returns (s: Sys)
    requires max >= 1 && node != ""
    ensures Init(s) && s.max == max && |OnNode(s.cloud, node)| == max - 1
    ensures Crowd(s, max, k, 0, 0, node)
  {
    s := Sys(max, Cloud(Fleet(max, max - 1 + k, node), map[]), {}, map[]);
    FleetShape(max, max - 1 + k, node);
    FleetOnNode(max, max - 1 + k, node);
    assert forall t: nat | t < k :: Ready(s.cloud, Wants(max, t, node));
  }

  lemma AtMostBelow(s: Sys, es: seq<Event>, node: string, k: nat)
    requires s.handlers == map[] && OnlyBelow(es, k)
    ensures AtMost(s, es, node, k)
  {
    forall i | 0 <= i <= |es| ensures |Publishing(Run(s, es[..i]), node)| <= k {
      FewHandlers(s, es[..i], k);
      SubsetSize(Publishing(Run(s, es[..i]), node), Below(k));
    }
  }
}
