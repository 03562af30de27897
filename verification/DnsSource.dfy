/** The DNS source of load balancers: which indexed endpoints become targets of a round, and which are
    cleaned up instead. */
module DnsSource {
  import opened Api
  import opened Selection
  import opened Feedback
  import opened Round
  import opened Lease
  import opened SubObjectCache
  import Index

  /** An endpoint as the index holds it. */
  datatype Indexed = Indexed(ref: EndpointRef, validUntil: Option<int>)

  predicate IsUsable(e: Indexed) {
    TargetOf(e.ref).IsValid()
  }

  predicate CleanedUp(e: Indexed, now: int, started: int) {
    IsUsable(e) && !InGrace(now, started) && Expired(e.validUntil, now)
  }

  predicate Targeted(e: Indexed, now: int, started: int) {
    IsUsable(e) && !CleanedUp(e, now, started)
  }

  /** The endpoints that become targets, in index order. */
  function Kept(es: seq<Indexed>, now: int, started: int): seq<Indexed> {
    if es == [] then []
    else Kept(es[..|es| - 1], now, started) + Maybe(Targeted(es[|es| - 1], now, started), es[|es| - 1])
  }

  function TargetsOf(es: seq<Indexed>): (ts: seq<Target>)
    ensures |ts| == |es|
  {
    seq(|es|, i requires 0 <= i < |es| => TargetOf(es[i].ref))
  }

  function CleanedNames(es: seq<Indexed>, now: int, started: int): set<string> {
    set e | e in es && CleanedUp(e, now, started) :: e.ref.name
  }

  /** Those of them that the API server really deletes. */
  function DeletedNames(es: seq<Indexed>, now: int, started: int, accepted: string -> bool): set<string> {
    set n | n in CleanedNames(es, now, started) && accepted(n)
  }

  class DNSLBSource {
    var started: int

    method Start(now: int)
      modifies this
      ensures started == now
    {
      started := now;
    }

    /** Deletes an endpoint whose deadline is strictly past; one without a deadline goes only when no
        watch asks for it. Whether the call succeeds is ignored. */
    method HandleCleanup(api: ApiServer, e: Indexed, hasWatch: bool, now: int, accepted: bool) returns (del: bool)
      modifies api
      ensures del <==> if e.validUntil.Some? then e.validUntil.value < now else !hasWatch
      ensures api.store
              == if del && accepted
                 then old(api.store).(endpoints := old(api.store.endpoints) - {e.ref.name})
                 else old(api.store)
    {
      del := false;
      if e.validUntil.Some? {
        if e.validUntil.value < now {
          del := true;
        }
      } else if !hasWatch {
        del := true;
      }
      if del && accepted {
        api.store := api.store.(endpoints := api.store.endpoints - {e.ref.name});
      }
    }

    /** An endpoint that is to be deleted is no target, even if the API server refuses to delete it. */
    method GetTargets(api: ApiServer, es: seq<Indexed>, now: int, accepted: string -> bool)
      returns (targets: seq<Target>)
      modifies api
      ensures targets == TargetsOf(Kept(es, now, started))
      ensures api.store
              == old(api.store).(endpoints := old(api.store.endpoints) - DeletedNames(es, now, started, accepted))
      ensures Collects(es, now, started, accepted, targets, old(api.store.endpoints), api.store.endpoints)
    {
      CollectsRule(es, now, started, accepted, api.store.endpoints);
      targets := Collect(api, es, now, accepted);
    }

    /** The loop over the endpoints of the index. */
    method Collect(api: ApiServer, es: seq<Indexed>, now: int, accepted: string -> bool)
      returns (targets: seq<Target>)
      modifies api
      ensures targets == TargetsOf(Kept(es, now, started))
      ensures api.store
              == old(api.store).(endpoints := old(api.store.endpoints) - DeletedNames(es, now, started, accepted))
    {
      targets := [];
      for i := 0 to |es|
        invariant targets == TargetsOf(Kept(es[..i], now, started))
        invariant api.store
                  == old(api.store).(endpoints := old(api.store.endpoints)
                                                  - DeletedNames(es[..i], now, started, accepted))
      {
        var e := es[i];
        OneMore(es, i, now, started, accepted);
        var t := Target(e.ref.cname, e.ref.ipAddress, Some(e.ref));
        var keep := Keep(api, e, t, now, accepted(e.ref.name));
        if keep {
          targets := targets + [t];
        }
      }
      assert es[..|es|] == es;
    }

    /** The conditions in the loop: whether the target is kept, with the clean-up where it is not. */
    method Keep(api: ApiServer, e: Indexed, t: Target, now: int, accepted: bool) returns (keep: bool)
      requires t == TargetOf(e.ref)
      modifies api
      ensures keep <==> Targeted(e, now, started)
      ensures api.store
              == old(api.store).(endpoints := old(api.store.endpoints)
                                              - if CleanedUp(e, now, started) && accepted then {e.ref.name} else {})
    {
      keep := false;
      if t.IsValid() {
        keep := now < started + 180 * SECOND;
        if !keep {
          var del := HandleCleanup(api, e, true, now, accepted);
          keep := !del;
        }
      }
    }
  }

  lemma KeptOneMore(es: seq<Indexed>, e: Indexed, now: int, started: int)
    ensures Kept(es + [e], now, started) == Kept(es, now, started) + Maybe(Targeted(e, now, started), e)
    ensures TargetsOf(Kept(es + [e], now, started))
            == TargetsOf(Kept(es, now, started)) + if Targeted(e, now, started) then [TargetOf(e.ref)] else []
  {
    assert (es + [e])[..|es|] == es;
  }

  lemma CleanedOneMore(es: seq<Indexed>, e: Indexed, now: int, started: int)
    ensures CleanedNames(es + [e], now, started)
            == CleanedNames(es, now, started) + if CleanedUp(e, now, started) then {e.ref.name} else {}
  {
  }

  lemma OneMore(es: seq<Indexed>, i: nat, now: int, started: int, accepted: string -> bool)
    requires i < |es|
    ensures TargetsOf(Kept(es[..i + 1], now, started))
            == TargetsOf(Kept(es[..i], now, started))
               + if Targeted(es[i], now, started) then [TargetOf(es[i].ref)] else []
    ensures DeletedNames(es[..i + 1], now, started, accepted)
            == DeletedNames(es[..i], now, started, accepted)
               + if CleanedUp(es[i], now, started) && accepted(es[i].ref.name) then {es[i].ref.name} else {}
  {
    assert es[..i] + [es[i]] == es[..i + 1];
    KeptOneMore(es[..i], es[i], now, started);
    CleanedOneMore(es[..i], es[i], now, started);
  }

  // ---- conservation ----

  function Cleaned(es: seq<Indexed>, now: int, started: int): seq<Indexed> {
    if es == [] then []
    else Cleaned(es[..|es| - 1], now, started) + Maybe(CleanedUp(es[|es| - 1], now, started), es[|es| - 1])
  }

  function Unusable(es: seq<Indexed>): seq<Indexed> {
    if es == [] then [] else Unusable(es[..|es| - 1]) + Maybe(!IsUsable(es[|es| - 1]), es[|es| - 1])
  }

  function Maybe(b: bool, e: Indexed): seq<Indexed> {
    if b then [e] else []
  }

  lemma MaybeMultiset(s: seq<Indexed>, b: bool, e: Indexed)
    ensures multiset(s + Maybe(b, e)) == multiset(s) + if b then multiset{e} else multiset{}
  {
  }

  lemma LastOfMultiset(es: seq<Indexed>)
    requires es != []
    ensures multiset(es) == multiset(es[..|es| - 1]) + multiset{es[|es| - 1]}
  {
    assert es == es[..|es| - 1] + [es[|es| - 1]];
  }

  lemma AddToOne(k: seq<Indexed>, c: seq<Indexed>, u: seq<Indexed>, e: Indexed, now: int, started: int)
    ensures multiset(k + Maybe(Targeted(e, now, started), e)) + multiset(c + Maybe(CleanedUp(e, now, started), e))
            + multiset(u + Maybe(!IsUsable(e), e))
            == multiset(k) + multiset(c) + multiset(u) + multiset{e}
  {
    MaybeMultiset(k, Targeted(e, now, started), e);
    MaybeMultiset(c, CleanedUp(e, now, started), e);
    MaybeMultiset(u, !IsUsable(e), e);
  }

  /** Every indexed endpoint is targeted, deleted or skipped as unusable, and only one of these. */
  lemma {:induction false} CleanupConserves(es: seq<Indexed>, now: int, started: int)
    ensures multiset(es)
            == multiset(Kept(es, now, started)) + multiset(Cleaned(es, now, started)) + multiset(Unusable(es))
  {
    if es != [] {
      var rest := es[..|es| - 1];
      CleanupConserves(rest, now, started);
      LastOfMultiset(es);
      AddToOne(Kept(rest, now, started), Cleaned(rest, now, started), Unusable(rest), es[|es| - 1], now, started);
    }
  }

  lemma {:induction false} KeptExactly(es: seq<Indexed>, now: int, started: int)
    ensures forall e :: e in Kept(es, now, started) <==> e in es && Targeted(e, now, started)
  {
    if es != [] {
      KeptExactly(es[..|es| - 1], now, started);
      assert es == es[..|es| - 1] + [es[|es| - 1]];
    }
  }

  /** Nothing is deleted in the three minutes after the start, when every endpoint with an address is a target.
      Afterwards every target has no deadline or one that is not past, and an endpoint with an address is deleted
      exactly for a deadline that is. */
  lemma CleanupRule(es: seq<Indexed>, now: int, started: int)
    ensures now < started + 180 * SECOND ==>
              && CleanedNames(es, now, started) == {}
              && (forall e :: e in Kept(es, now, started) <==>
                    e in es && (e.ref.ipAddress != "" || e.ref.cname != ""))
    ensures now >= started + 180 * SECOND ==>
              && (forall n :: n in CleanedNames(es, now, started) <==>
                    exists e :: e in es && e.ref.name == n && (e.ref.ipAddress != "" || e.ref.cname != "")
                                && e.validUntil.Some? && e.validUntil.value < now)
              && (forall e :: e in Kept(es, now, started) <==>
                    && e in es && (e.ref.ipAddress != "" || e.ref.cname != "")
                    && (e.validUntil.None? || now <= e.validUntil.value))
  {
    KeptExactly(es, now, started);
  }

  /** What `GetTargets` promises, in plain terms: for three minutes after the start every endpoint with an address
      is a target and nothing is deleted; afterwards those whose deadline is past are no targets and go, unless the
      API server refuses. */
  ghost predicate Collects(es: seq<Indexed>, now: int, started: int, accepted: string -> bool,
                           targets: seq<Target>, before: Endpoints, after: Endpoints)
  {
    && (forall t :: t in targets <==>
          exists e :: e in es && t == TargetOf(e.ref) && (e.ref.ipAddress != "" || e.ref.cname != "")
                      && (now < started + 180 * SECOND || e.validUntil.None? || now <= e.validUntil.value))
    && (now < started + 180 * SECOND ==> after == before)
    && (now >= started + 180 * SECOND ==>
          forall n :: n in after <==>
            && n in before
            && !exists e :: e in es && e.ref.name == n && (e.ref.ipAddress != "" || e.ref.cname != "")
                            && e.validUntil.Some? && e.validUntil.value < now && accepted(n))
    && (forall n :: n in after && n in before ==> after[n] == before[n])
  }

  lemma TargetsRule(es: seq<Indexed>, now: int, started: int, t: Target)
    ensures t in TargetsOf(Kept(es, now, started)) <==>
            exists e :: e in es && t == TargetOf(e.ref) && (e.ref.ipAddress != "" || e.ref.cname != "")
                        && (now < started + 180 * SECOND || e.validUntil.None? || now <= e.validUntil.value)
  {
    CleanupRule(es, now, started);
    var kept := Kept(es, now, started);
    if t in TargetsOf(kept) {
      var i :| 0 <= i < |kept| && TargetsOf(kept)[i] == t;
      assert kept[i] in kept;
    }
    if e :| e in es && t == TargetOf(e.ref) && (e.ref.ipAddress != "" || e.ref.cname != "")
            && (now < started + 180 * SECOND || e.validUntil.None? || now <= e.validUntil.value) {
      assert e in kept;
      var i :| 0 <= i < |kept| && kept[i] == e;
      assert TargetsOf(kept)[i] == t;
    }
  }

  lemma CollectsRule(es: seq<Indexed>, now: int, started: int, accepted: string -> bool, before: Endpoints)
    ensures Collects(es, now, started, accepted, TargetsOf(Kept(es, now, started)),
                     before, before - DeletedNames(es, now, started, accepted))
  {
    CleanupRule(es, now, started);
    forall t ensures t in TargetsOf(Kept(es, now, started)) <==>
                     exists e :: e in es && t == TargetOf(e.ref) && (e.ref.ipAddress != "" || e.ref.cname != "")
                                 && (now < started + 180 * SECOND || e.validUntil.None? || now <= e.validUntil.value)
    {
      TargetsRule(es, now, started, t);
    }
  }

  /** Targets keep the order of the index. */
  lemma {:induction false} KeptInOrder(es: seq<Indexed>, now: int, started: int) returns (at: seq<nat>)
    ensures |at| == |Kept(es, now, started)|
    ensures forall i :: 0 <= i < |at| ==> at[i] < |es| && Kept(es, now, started)[i] == es[at[i]]
    ensures forall i, j :: 0 <= i < j < |at| ==> at[i] < at[j]
  {
    if es == [] {
      at := [];
    } else {
      at := KeptInOrder(es[..|es| - 1], now, started);
      if Targeted(es[|es| - 1], now, started) {
        at := at + [|es| - 1];
      }
    }
  }

  predicate DistinctNames(es: seq<Indexed>) {
    forall i, j :: 0 <= i < j < |es| ==> es[i].ref.name != es[j].ref.name
  }

  lemma {:induction false} KeptDistinct(es: seq<Indexed>, now: int, started: int)
    requires DistinctNames(es)
    ensures DistinctNames(Kept(es, now, started))
  {
    if es != [] {
      var rest, last := es[..|es| - 1], es[|es| - 1];
      KeptDistinct(rest, now, started);
      KeptExactly(rest, now, started);
      var kept := Kept(rest, now, started);
      forall i | 0 <= i < |kept| ensures kept[i].ref.name != last.ref.name {
        assert kept[i] in rest;
      }
    }
  }

  /** The clean-up deletes the endpoints of one part of that partition. */
  lemma {:induction false} CleanedNamesExactly(es: seq<Indexed>, now: int, started: int)
    ensures CleanedNames(es, now, started) == set e | e in Cleaned(es, now, started) :: e.ref.name
  {
    if es != [] {
      var rest, last := es[..|es| - 1], es[|es| - 1];
      CleanedNamesExactly(rest, now, started);
      CleanedOneMore(rest, last, now, started);
      assert es == rest + [last];
    }
  }

  /** The targets handed to `Handle` are backed by distinct endpoints, whatever the health checks say. */
  lemma TargetsAreBacked(es: seq<Indexed>, now: int, started: int, health: seq<bool>)
    requires DistinctNames(es) && |health| == |TargetsOf(Kept(es, now, started))|
    ensures Backed(Probed(TargetsOf(Kept(es, now, started)), health))
  {
    KeptDistinct(es, now, started);
  }

  /** Through any history of the index, what it lists for a load balancer gives backed targets. */
  lemma ListedTargetsAreBacked(
    states: seq<Index.State>, steps: seq<Index.Step>, owner: ObjectName, subs: seq<Ep>,
    es: seq<Indexed>, now: int, started: int, health: seq<bool>)
    requires Index.IsRun(states, steps) && Index.Start(states[0]) && Lists(states[|steps|].view, owner, subs)
    requires |es| == |subs| && forall i :: 0 <= i < |es| ==> es[i].ref.name == subs[i].key.name
    requires |health| == |TargetsOf(Kept(es, now, started))|
    ensures DistinctNames(es) && Backed(Probed(TargetsOf(Kept(es, now, started)), health))
  {
    Index.ListedNamesDiffer(states, steps, owner, subs);
    TargetsAreBacked(es, now, started, health);
  }

  /** Across both controllers: in every reachable state the endpoint of a live source is targeted by the
      next round, as far as it offers an address. */
  lemma LiveSourceIsTargeted(losses: Losses, dmin: int, states: seq<State>, steps: seq<Step>,
                             id: string, gap: nat, es: seq<Indexed>, e: Indexed)
    requires losses != Trusted && IsRun(losses, dmin, states, steps) && gap <= Protection(dmin, losses)
    requires var s := states[|steps|];
             && Live(s, id, gap) && e in es && IsUsable(e)
             && s.sources[id].seen == Present(e.validUntil)
    ensures e in Kept(es, states[|steps|].now, states[|steps|].started)
  {
    NeverDeletesLive(losses, dmin, states, steps, id, gap);
    KeptExactly(es, states[|steps|].now, states[|steps|].started);
  }

  /** And the endpoint of a dead source is not: once the longest interval has passed since the last reconcile the
      DNS controller has seen, and the grace is over, a round targets it exactly if it offers an address and
      carries no deadline, and deletes it exactly if it offers an address and carries one. */
  lemma DeadSourceTargetedIff(dmin: int, dmax: int, states: seq<State>, steps: seq<Step>,
                              id: string, es: seq<Indexed>, e: Indexed)
    requires IsRun(Trusted, dmin, states, steps)
    requires AllBounded(states[0], states[0].now, dmax) && forall i :: 0 <= i < |steps| ==> AtMost(steps[i], dmax)
    requires SilentFor(states, id, dmax)
    requires e in es && states[|steps|].sources[id].seen == Present(e.validUntil)
    ensures var t := states[|steps|];
            && (e in Kept(es, t.now, t.started) <==> IsUsable(e) && e.validUntil.None?)
            && (CleanedUp(e, t.now, t.started) <==> IsUsable(e) && e.validUntil.Some?)
  {
    var t := states[|steps|];
    DeadSourceDropsOutIff(dmin, dmax, states, steps, id);
    KeptExactly(es, t.now, t.started);
  }
}
