/** One DNS round as a plain function: what is gathered, what is published, what is written. */
module Round {
  import opened Api
  import opened Selection
  import opened Feedback

  const NO_ENDPOINTS := "no endpoints configured"
  const NO_HEALTHY := "no healthy targets found"

  /** The probing loops of both modes; Exclusive adds its one active target afterwards. */
  function Probing(singleton: bool, ps: seq<Probe>, dnsHealthy: bool): Collected {
    if ps == [] then Collected("", 0, dnsHealthy, map[], map[], map[])
    else
      var c, p := Probing(singleton, ps[..|ps| - 1], dnsHealthy), ps[|ps| - 1];
      if !p.healthy then WithUnhealthy(c, p.target)
      else if singleton then WithHealthy(c, p.target)
      else WithHealthy(WithActive(c, p.target), p.target)
  }

  function Gathered(singleton: bool, ps: seq<Probe>, current: set<string>, dnsHealthy: bool): Collected {
    var c := Probing(singleton, ps, dnsHealthy);
    if singleton && Choice(ps, current).Some? then WithActive(c, Choice(ps, current).value) else c
  }

  lemma {:induction false} ProbingKeyed(singleton: bool, ps: seq<Probe>, dnsHealthy: bool)
    ensures Probing(singleton, ps, dnsHealthy).Keyed()
  {
    if ps != [] {
      ProbingKeyed(singleton, ps[..|ps| - 1], dnsHealthy);
    }
  }

  lemma GatheredKeyed(singleton: bool, ps: seq<Probe>, current: set<string>, dnsHealthy: bool)
    ensures Gathered(singleton, ps, current, dnsHealthy).Keyed()
  {
    ProbingKeyed(singleton, ps, dnsHealthy);
  }

  /** Every target is backed by an endpoint of its own, and names the hosts of that endpoint:
      this is how `GetTargets` builds them from an index of distinct keys. */
  ghost predicate Backed(ps: seq<Probe>) {
    && (forall p :: p in ps ==>
          p.target.dnsep.Some? && p.target == TargetOf(p.target.dnsep.value))
    && (forall i, j :: 0 <= i < j < |ps| ==> EndpointName(ps[i]) != EndpointName(ps[j]))
  }

  function TargetOf(e: EndpointRef): Target {
    Target(e.cname, e.ipAddress, Some(e))
  }

  function EndpointName(p: Probe): string {
    if p.target.dnsep.Some? then p.target.dnsep.value.name else ""
  }

  /** The map holds exactly the endpoints of the probes with the given answer. */
  ghost predicate Files(m: map<string, EndpointRef>, ps: seq<Probe>, healthy: bool) {
    && (forall p :: p in ps && p.healthy == healthy ==>
          EndpointName(p) in m && p.target.dnsep == Some(m[EndpointName(p)]))
    && (forall k :: k in m ==>
          exists p :: p in ps && p.healthy == healthy && p.target.dnsep == Some(m[k]) && m[k].name == k)
  }

  lemma BackedPrefix(ps: seq<Probe>)
    requires Backed(ps) && ps != []
    ensures Backed(ps[..|ps| - 1])
    ensures forall p :: p in ps[..|ps| - 1] ==> EndpointName(p) != EndpointName(ps[|ps| - 1])
  {
    var rest := ps[..|ps| - 1];
    assert ps == rest + [ps[|ps| - 1]];
    forall p | p in rest ensures EndpointName(p) != EndpointName(ps[|ps| - 1]) {
      var i :| 0 <= i < |rest| && rest[i] == p;
      assert ps[i] == p;
    }
  }

  lemma {:induction false} FilesOneMore(m: map<string, EndpointRef>, ps: seq<Probe>, p: Probe, healthy: bool)
    requires Files(m, ps, healthy) && p.target.dnsep.Some?
    requires forall q :: q in ps ==> EndpointName(q) != EndpointName(p)
    ensures Files(if p.healthy == healthy then m[EndpointName(p) := p.target.dnsep.value] else m, ps + [p], healthy)
  {
    var m' := if p.healthy == healthy then m[EndpointName(p) := p.target.dnsep.value] else m;
    forall k | k in m'
      ensures exists q :: q in ps + [p] && q.healthy == healthy && q.target.dnsep == Some(m'[k]) && m'[k].name == k
    {
      if k in m && m'[k] == m[k] {
        var q :| q in ps && q.healthy == healthy && q.target.dnsep == Some(m[k]) && m[k].name == k;
        assert q in ps + [p];
      } else {
        assert p in ps + [p];
      }
    }
  }

  /** The endpoints of the probes with the given answer, filed by name; a later one replaces an earlier one. */
  function FiledByHealth(ps: seq<Probe>, healthy: bool): map<string, EndpointRef> {
    if ps == [] then map[]
    else
      var m, p := FiledByHealth(ps[..|ps| - 1], healthy), ps[|ps| - 1];
      if p.healthy == healthy && p.target.dnsep.Some? then m[p.target.dnsep.value.name := p.target.dnsep.value] else m
  }

  lemma {:induction false} ProbingShape(singleton: bool, ps: seq<Probe>, dnsHealthy: bool)
    ensures Probing(singleton, ps, dnsHealthy)
            == Collected("", (if singleton then 1 else 2) * |HealthyTargets(ps)|, dnsHealthy,
                         if singleton then map[] else FiledByHealth(ps, true),
                         FiledByHealth(ps, true), FiledByHealth(ps, false))
  {
    if ps != [] {
      ProbingShape(singleton, ps[..|ps| - 1], dnsHealthy);
    }
  }

  lemma {:induction false} FiledExactly(ps: seq<Probe>, healthy: bool)
    requires Backed(ps)
    ensures Files(FiledByHealth(ps, healthy), ps, healthy)
  {
    if ps != [] {
      var rest, p := ps[..|ps| - 1], ps[|ps| - 1];
      assert ps == rest + [p];
      BackedPrefix(ps);
      FiledExactly(rest, healthy);
      assert p in ps;
      FilesOneMore(FiledByHealth(rest, healthy), rest, p, healthy);
    }
  }

  lemma {:induction false} FiledSize(ps: seq<Probe>)
    requires Backed(ps)
    ensures |FiledByHealth(ps, true)| == |HealthyTargets(ps)|
  {
    if ps != [] {
      var rest, p := ps[..|ps| - 1], ps[|ps| - 1];
      assert ps == rest + [p];
      BackedPrefix(ps);
      FiledSize(rest);
      FiledExactly(rest, true);
      assert p in ps;
      assert EndpointName(p) !in FiledByHealth(rest, true);
    }
  }

  lemma FiledDisjoint(ps: seq<Probe>)
    requires Backed(ps)
    ensures FiledByHealth(ps, true).Keys !! FiledByHealth(ps, false).Keys
    ensures FiledByHealth(ps, true).Keys + FiledByHealth(ps, false).Keys == (set p | p in ps :: EndpointName(p))
  {
    FiledExactly(ps, true);
    FiledExactly(ps, false);
    var h, u := FiledByHealth(ps, true), FiledByHealth(ps, false);
    forall k | k in h ensures k !in u {
      var p :| p in ps && p.healthy && p.target.dnsep == Some(h[k]) && h[k].name == k;
      forall q | q in ps && !q.healthy ensures EndpointName(q) != k {
        SameNameSameProbe(ps, p, q);
      }
    }
    forall k ensures k in h.Keys + u.Keys <==> k in set p | p in ps :: EndpointName(p) {
      if k in h { assert exists p :: p in ps && EndpointName(p) == k; }
      if k in u { assert exists p :: p in ps && EndpointName(p) == k; }
    }
  }

  /** In Exclusive mode the active map holds the chosen endpoint alone. */
  lemma ExclusiveActive(ps: seq<Probe>, current: set<string>, dnsHealthy: bool)
    requires Backed(ps)
    ensures var c := Gathered(true, ps, current, dnsHealthy);
            && c.healthy == FiledByHealth(ps, true) && c.unhealthy == FiledByHealth(ps, false)
            && (!AnyHealthy(ps) ==> c.active == map[] && c.hcount == 0)
            && (AnyHealthy(ps) ==>
                  && Choice(ps, current).Some? && Choice(ps, current).value.dnsep.Some?
                  && c.hcount == |FiledByHealth(ps, true)| + 1
                  && var e := Choice(ps, current).value.dnsep.value;
                     c.active == map[e.name := e] && e.name in c.healthy && c.healthy[e.name] == e)
  {
    ProbingShape(true, ps, dnsHealthy);
    FiledSize(ps);
    FiledExactly(ps, true);
    HealthyTargetsMeaning(ps);
    ChoiceRule(ps, current);
    if AnyHealthy(ps) {
      var i :| 0 <= i < |ps| && ps[i].healthy && Choice(ps, current) == Some(ps[i].target);
      assert ps[i] in ps;
    }
  }

  /** The maps hold exactly the targets of their kind, no target is in both or in neither, and only
      healthy targets are active. */
  ghost predicate Partitioned(c: Collected, ps: seq<Probe>) {
    && c.Keyed()
    && Files(c.healthy, ps, true) && Files(c.unhealthy, ps, false)
    && c.healthy.Keys !! c.unhealthy.Keys
    && c.healthy.Keys + c.unhealthy.Keys == (set p | p in ps :: EndpointName(p))
    && (forall k :: k in c.active ==> k in c.healthy && c.active[k] == c.healthy[k])
  }

  lemma PartitionedByFiling(c: Collected, ps: seq<Probe>)
    requires Backed(ps) && c.healthy == FiledByHealth(ps, true) && c.unhealthy == FiledByHealth(ps, false)
    requires forall k :: k in c.active ==> k in c.healthy && c.active[k] == c.healthy[k]
    ensures Partitioned(c, ps)
  {
    FiledExactly(ps, true);
    FiledExactly(ps, false);
    FiledDisjoint(ps);
  }

  /** The maps of a round partition its targets; Exclusive mode activates exactly one endpoint iff any
      is healthy, Balanced mode all healthy ones; and the counter behind `HasHealthy` is exact. */
  lemma HealthPartition(singleton: bool, ps: seq<Probe>, current: set<string>, dnsHealthy: bool)
    requires Backed(ps)
    ensures var c := Gathered(singleton, ps, current, dnsHealthy);
            && Partitioned(c, ps)
            && (singleton ==> |c.active| == if AnyHealthy(ps) then 1 else 0)
            && (!singleton ==> c.active == c.healthy)
            && c.hcount == (if !AnyHealthy(ps) then 0 else if singleton then |c.healthy| + 1 else 2 * |c.healthy|)
            && (c.hcount != 0 <==> AnyHealthy(ps))
  {
    var c := Gathered(singleton, ps, current, dnsHealthy);
    HealthyTargetsMeaning(ps);
    FiledSize(ps);
    if singleton {
      ExclusiveActive(ps, current, dnsHealthy);
    } else {
      ProbingShape(false, ps, dnsHealthy);
    }
    PartitionedByFiling(c, ps);
  }

  lemma SameNameSameProbe(ps: seq<Probe>, p: Probe, q: Probe)
    requires Backed(ps) && p in ps && q in ps
    ensures EndpointName(p) == EndpointName(q) ==> p == q
  {
    var i :| 0 <= i < |ps| && ps[i] == p;
    var j :| 0 <= j < |ps| && ps[j] == q;
    assert EndpointName(ps[i]) == EndpointName(ps[j]) ==> i == j;
  }

  // ---- order ----

  lemma TwiceInMultiset(ps: seq<Probe>, i: nat, j: nat)
    requires i < j < |ps| && ps[i] == ps[j]
    ensures multiset(ps)[ps[i]] >= 2
  {
    assert ps == ps[..j] + ps[j..];
    assert ps[..j][i] in multiset(ps[..j]) && ps[j..][0] in multiset(ps[j..]);
    assert multiset(ps) == multiset(ps[..j]) + multiset(ps[j..]);
  }

  lemma {:induction false} OnceInMultiset(ps: seq<Probe>, p: Probe)
    requires Backed(ps)
    ensures multiset(ps)[p] <= 1
  {
    if ps != [] {
      var rest, last := ps[..|ps| - 1], ps[|ps| - 1];
      BackedPrefix(ps);
      OnceInMultiset(rest, p);
      assert ps == rest + [last];
      assert last !in rest;
      assert multiset(ps) == multiset(rest) + multiset{last};
      assert last !in multiset(rest);
    }
  }

  /** Listing the same targets in another order keeps them backed. */
  lemma BackedIgnoresOrder(ps: seq<Probe>, qs: seq<Probe>)
    requires Backed(ps) && multiset(qs) == multiset(ps)
    ensures Backed(qs)
  {
    SameMembers(ps, qs);
    forall i, j | 0 <= i < j < |qs| ensures EndpointName(qs[i]) != EndpointName(qs[j]) {
      assert qs[i] in qs && qs[j] in qs;
      SameNameSameProbe(ps, qs[i], qs[j]);
      OnceInMultiset(ps, qs[i]);
      if qs[i] == qs[j] {
        TwiceInMultiset(qs, i, j);
      }
    }
  }

  lemma FilesUnique(m: map<string, EndpointRef>, n: map<string, EndpointRef>,
                    ps: seq<Probe>, qs: seq<Probe>, healthy: bool)
    requires Files(m, ps, healthy) && Files(n, qs, healthy)
    requires forall p :: p in ps <==> p in qs
    ensures m == n
  {
    forall k | k in m ensures k in n && n[k] == m[k] {
      var p :| p in ps && p.healthy == healthy && p.target.dnsep == Some(m[k]) && m[k].name == k;
      assert p in qs;
    }
    forall k | k in n ensures k in m {
      var p :| p in qs && p.healthy == healthy && p.target.dnsep == Some(n[k]) && n[k].name == k;
      assert p in ps;
    }
  }

  /** In Balanced mode the order of the targets matters neither for the published hosts nor for any
      of the gathered maps. */
  lemma BalancedGathersSame(ps: seq<Probe>, qs: seq<Probe>, current: set<string>, dnsHealthy: bool)
    requires Backed(ps) && multiset(qs) == multiset(ps)
    ensures Gathered(false, qs, current, dnsHealthy) == Gathered(false, ps, current, dnsHealthy)
    ensures Published(false, qs, current) == Published(false, ps, current)
  {
    BackedIgnoresOrder(ps, qs);
    SameMembers(ps, qs);
    BalancedIgnoresOrder(ps, current);
    FiledExactly(ps, true);
    FiledExactly(qs, true);
    FiledExactly(ps, false);
    FiledExactly(qs, false);
    FilesUnique(FiledByHealth(ps, true), FiledByHealth(qs, true), ps, qs, true);
    FilesUnique(FiledByHealth(ps, false), FiledByHealth(qs, false), ps, qs, false);
    FiledSize(ps);
    FiledSize(qs);
    ProbingShape(false, ps, dnsHealthy);
    ProbingShape(false, qs, dnsHealthy);
  }

  // ---- the whole round ----

  /** Everything that decides a round besides what DNS already says: the mode, the probed targets,
      the health of the DNS name and the callbacks that arrive. */
  datatype RoundInput = RoundInput(singleton: bool, probes: seq<Probe>, dnsHealthy: bool, callbacks: seq<Callback>)

  function Updated(inp: RoundInput, current: set<string>): set<string> {
    Published(inp.singleton, inp.probes, current)
  }

  /** What is gathered when `Handle` is through; `note` is the text announcing a replacement. */
  function Handled(inp: RoundInput, current: set<string>, note: string): Collected {
    var c := Gathered(inp.singleton, inp.probes, current, inp.dnsHealthy);
    if Updated(inp, current) != current then c.(message := note) else c
  }

  /** Nothing healthy and nothing to withdraw: the round fails before any callback. */
  predicate FailsInside(inp: RoundInput, current: set<string>) {
    Updated(inp, current) == current && Gathered(inp.singleton, inp.probes, current, inp.dnsHealthy).hcount == 0
  }

  lemma HandledMaps(inp: RoundInput, current: set<string>, note: string)
    ensures var h, c := Handled(inp, current, note), Gathered(inp.singleton, inp.probes, current, inp.dnsHealthy);
            h.healthy == c.healthy && h.unhealthy == c.unhealthy && h.active == c.active
  {
  }

  /** Told from the probes and what DNS says. */
  lemma FailsInsideIff(inp: RoundInput, current: set<string>)
    ensures FailsInside(inp, current) <==> !AnyHealthy(inp.probes) && current == {}
    ensures !AnyHealthy(inp.probes) ==> Updated(inp, current) == {}
  {
    var ps := inp.probes;
    HealthyTargetsMeaning(ps);
    ChoiceRule(ps, current);
    ProbingShape(inp.singleton, ps, inp.dnsHealthy);
    if AnyHealthy(ps) {
      assert |HealthyTargets(ps)| > 0;
    }
  }

  const NOTHING_GATHERED := Collected("", 0, false, map[], map[], map[])

  /** The effect of a round that works with the given copies of the load balancer and the endpoints. */
  ghost function RoundEffect(
    inp: RoundInput, current: set<string>, note: string, s: Store, prev: Versioned<LbStatus>, copies: Endpoints): Store
  {
    if inp.probes == [] then ErrorReport(s, NOTHING_GATHERED, prev, true, NO_ENDPOINTS)
    else if FailsInside(inp, current) then ErrorReport(s, Handled(inp, current, note), prev, false, NO_HEALTHY)
    else if inp.callbacks == [] then s
    else Report(s, Handled(inp, current, note), prev, copies, inp.callbacks[0])
  }

  /** A round whose copies are what is stored. */
  ghost function RoundStore(inp: RoundInput, current: set<string>, note: string, s: Store): Store {
    RoundEffect(inp, current, note, s, s.lb, s.endpoints)
  }
}
