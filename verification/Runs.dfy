/** Promises over many rounds: status and DNS agree, and with unchanged surroundings all writing stops. */
module Runs {
  import opened Api
  import opened Selection
  import opened Feedback
  import opened FeedbackLaws
  import opened Round
  import opened StateReconciler
  import opened Watch

  // ---- the written status and the published hosts agree ----

  function EntryHost(e: ActiveEntry): string {
    if e.cname != "" then e.cname else e.ipAddress
  }

  function ListedHosts(active: Option<seq<ActiveEntry>>): set<string> {
    if active.None? then {} else set e | e in active.value :: EntryHost(e)
  }

  /** The round reports a load balancer status at all. */
  ghost predicate Reports(inp: RoundInput, current: set<string>) {
    inp.probes == [] || inp.callbacks != [] || (!AnyHealthy(inp.probes) && current == {})
  }

  ghost function StoredActive(active: map<string, EndpointRef>): Option<seq<ActiveEntry>> {
    if |active| > 0 then Some(ActiveList(active)) else None
  }

  /** The hosts behind a map of endpoints. */
  function MapHosts(m: map<string, EndpointRef>): set<string> {
    set k | k in m :: EntryHost(EntryOf(m[k]))
  }

  lemma StoredHosts(active: map<string, EndpointRef>)
    requires forall k :: k in active ==> active[k].name == k
    ensures ListedHosts(StoredActive(active)) == MapHosts(active)
  {
    ActiveListShape(active);
    if |active| == 0 {
      assert active == map[];
    } else {
      forall k | k in active ensures EntryHost(EntryOf(active[k])) in ListedHosts(StoredActive(active)) {
        assert EntryOf(active[k]) in ActiveList(active);
      }
    }
  }

  lemma BackedHost(e: EndpointRef, healthy: bool)
    ensures Probe(TargetOf(e), healthy).Host() == EntryHost(EntryOf(e))
  {
  }

  lemma FiledHostsAre(m: map<string, EndpointRef>, ps: seq<Probe>, h: string)
    requires Backed(ps) && Files(m, ps, true)
    ensures h in MapHosts(m) <==> HealthyAt(ps, h)
  {
    if HealthyAt(ps, h) {
      var p :| p in ps && p.healthy && p.Host() == h;
      BackedHost(p.target.dnsep.value, p.healthy);
      assert EndpointName(p) in m;
    }
    if h in MapHosts(m) {
      var k :| k in m && EntryHost(EntryOf(m[k])) == h;
      var p :| p in ps && p.healthy == true && p.target.dnsep == Some(m[k]) && m[k].name == k;
      BackedHost(m[k], true);
    }
  }

  /** The active map names exactly the hosts the round publishes. */
  lemma ActiveHosts(inp: RoundInput, current: set<string>, note: string)
    requires Backed(inp.probes)
    ensures MapHosts(Handled(inp, current, note).active) == Updated(inp, current)
  {
    if inp.singleton {
      ExclusiveHosts(inp.probes, current, inp.dnsHealthy);
    } else {
      var active := Handled(inp, current, note).active;
      HealthPartition(false, inp.probes, current, inp.dnsHealthy);
      PublishedBalanced(inp.probes, current);
      forall h ensures h in MapHosts(active) <==> h in Updated(inp, current) {
        FiledHostsAre(active, inp.probes, h);
      }
    }
  }

  lemma ExclusiveHosts(ps: seq<Probe>, current: set<string>, dnsHealthy: bool)
    requires Backed(ps)
    ensures MapHosts(Gathered(true, ps, current, dnsHealthy).active) == Published(true, ps, current)
  {
    ExclusiveActive(ps, current, dnsHealthy);
    ChoiceRule(ps, current);
    if AnyHealthy(ps) {
      var i :| 0 <= i < |ps| && ps[i].healthy && Choice(ps, current) == Some(ps[i].target);
      assert ps[i] in ps;
      var e := Choice(ps, current).value.dnsep.value;
      BackedHost(e, true);
      assert Published(true, ps, current) == {EntryHost(EntryOf(e))};
      SingleHost(e);
    }
  }

  lemma SingleHost(e: EndpointRef)
    ensures MapHosts(map[e.name := e]) == {EntryHost(EntryOf(e))}
  {
    var m := map[e.name := e];
    assert e.name in m && m[e.name] == e;
  }

  lemma ReportedActive(s: Store, c: Collected, cb: Callback)
    ensures Report(s, c, s.lb, s.endpoints, cb).lb.status.active == if cb.Failed? then None else StoredActive(c.active)
  {
    assert |STATE_ERROR| == 5 && |STATE_PENDING| == 7;
  }

  lemma ErrorActive(s: Store, c: Collected, activeupd: bool, err: string)
    ensures ErrorReport(s, c, s.lb, activeupd, err).lb.status.active
            == if activeupd then StoredActive(c.active) else None
  {
    assert |STATE_ERROR| == 5 && |STATE_PENDING| == 7;
  }

  /** After a reporting round the stored active list names exactly the published hosts if and only if nothing
      is healthy or the first callback is no failure. */
  lemma StatusAgreesWithDnsIff(inp: RoundInput, current: set<string>, note: string, s: Store)
    requires Backed(inp.probes) && Reports(inp, current)
    ensures ListedHosts(RoundStore(inp, current, note, s).lb.status.active) == Updated(inp, current)
            <==> !AnyHealthy(inp.probes) || !inp.callbacks[0].Failed?
  {
    var c := Handled(inp, current, note);
    GatheredKeyed(inp.singleton, inp.probes, current, inp.dnsHealthy);
    StoredHosts(c.active);
    ActiveHosts(inp, current, note);
    FailsInsideIff(inp, current);
    if AnyHealthy(inp.probes) {
      PublishedWhenHealthy(inp, current);
    }
    if inp.probes == [] {
      ErrorActive(s, NOTHING_GATHERED, true, NO_ENDPOINTS);
    } else if FailsInside(inp, current) {
      ErrorActive(s, c, false, NO_HEALTHY);
    } else {
      ReportedActive(s, c, inp.callbacks[0]);
    }
  }

  lemma PublishedWhenHealthy(inp: RoundInput, current: set<string>)
    requires AnyHealthy(inp.probes)
    ensures Updated(inp, current) != {}
  {
    PublishedExclusive(inp.probes, current);
    PublishedBalanced(inp.probes, current);
    var p :| p in inp.probes && p.healthy;
    assert HealthyAt(inp.probes, p.Host());
  }

  /** An example of the disagreement: a failure reported while a healthy target is published. */
  lemma OutsideFailureDisagrees(s: Store)
    ensures exists inp: RoundInput, note: string ::
              Backed(inp.probes) && Reports(inp, {}) &&
              ListedHosts(RoundStore(inp, {}, note, s).lb.status.active) != Updated(inp, {})
  {
    var p := Probe(TargetOf(EndpointRef("e", "a", "")), true);
    var inp := RoundInput(false, [p], true, [Failed("refused")]);
    assert p in inp.probes && HealthyAt(inp.probes, "a");
    StatusAgreesWithDnsIff(inp, {}, "note", s);
  }

  /** After any feedback but a failure, the endpoints tell the selection: each endpoint of the round has
      the health of its target, and is Active exactly if its target is among the selected ones. */
  lemma EndpointsTellSelection(inp: RoundInput, current: set<string>, note: string, s: Store, p: Probe)
    requires Backed(inp.probes) && p in inp.probes && EndpointName(p) in s.endpoints
    requires !FailsInside(inp, current) && inp.callbacks != [] && !inp.callbacks[0].Failed?
    ensures EndpointName(p) in RoundStore(inp, current, note, s).endpoints
    ensures var e := RoundStore(inp, current, note, s).endpoints[EndpointName(p)].status;
            && e.healthy == p.healthy
            && (e.state == Some(STATE_ACTIVE) <==> p.target in Selected(inp.singleton, inp.probes, current))
            && (e.state == Some(STATE_INACTIVE) <==> p.target !in Selected(inp.singleton, inp.probes, current))
  {
    var c, n := Handled(inp, current, note), EndpointName(p);
    RoundMaps(inp.singleton, inp.probes, current, inp.dnsHealthy, p);
    EndpointReported(s, c, s.lb, s.endpoints, inp.callbacks[0], n);
    assert n in c.healthy <==> p.healthy by {
      HealthyFiled(inp.singleton, inp.probes, current, inp.dnsHealthy, p);
    }
    assert n in c.active <==> p.target in Selected(inp.singleton, inp.probes, current) by {
      if inp.singleton {
        ActiveIffChosen(inp.probes, current, inp.dnsHealthy, p);
      } else {
        ActiveIffHealthy(inp.probes, current, inp.dnsHealthy, p);
      }
    }
  }

  lemma RoundMaps(singleton: bool, ps: seq<Probe>, current: set<string>, dnsHealthy: bool, p: Probe)
    requires Backed(ps) && p in ps
    ensures var c := Gathered(singleton, ps, current, dnsHealthy);
            && c.healthy.Keys !! c.unhealthy.Keys && c.active.Keys <= c.healthy.Keys
            && (EndpointName(p) in c.healthy || EndpointName(p) in c.unhealthy)
  {
    HealthPartition(singleton, ps, current, dnsHealthy);
    assert EndpointName(p) in (set q | q in ps :: EndpointName(q));
  }

  lemma HealthyFiled(singleton: bool, ps: seq<Probe>, current: set<string>, dnsHealthy: bool, p: Probe)
    requires Backed(ps) && p in ps
    ensures EndpointName(p) in Gathered(singleton, ps, current, dnsHealthy).healthy <==> p.healthy
  {
    HealthPartition(singleton, ps, current, dnsHealthy);
    var h := Gathered(singleton, ps, current, dnsHealthy).healthy;
    if EndpointName(p) in h {
      var q :| q in ps && q.healthy == true && q.target.dnsep == Some(h[EndpointName(p)])
               && h[EndpointName(p)].name == EndpointName(p);
      SameNameSameProbe(ps, p, q);
    }
  }

  lemma ActiveIffHealthy(ps: seq<Probe>, current: set<string>, dnsHealthy: bool, p: Probe)
    requires Backed(ps) && p in ps
    ensures EndpointName(p) in Gathered(false, ps, current, dnsHealthy).active
            <==> p.target in Selected(false, ps, current)
  {
    ProbingShape(false, ps, dnsHealthy);
    HealthyFiled(false, ps, current, dnsHealthy, p);
    HealthyTargetsMeaning(ps);
    if Probe(p.target, true) in ps {
      SameNameSameProbe(ps, p, Probe(p.target, true));
    }
    assert p.healthy ==> p == Probe(p.target, true);
  }

  lemma ActiveIffChosen(ps: seq<Probe>, current: set<string>, dnsHealthy: bool, p: Probe)
    requires Backed(ps) && p in ps
    ensures EndpointName(p) in Gathered(true, ps, current, dnsHealthy).active
            <==> p.target in Selected(true, ps, current)
  {
    ExclusiveActive(ps, current, dnsHealthy);
    ChoiceRule(ps, current);
    if AnyHealthy(ps) {
      var i :| 0 <= i < |ps| && ps[i].healthy && Choice(ps, current) == Some(ps[i].target);
      SameNameSameProbe(ps, p, ps[i]);
    }
  }

  // ---- quiescence ----

  /** Feeding back what was published publishes the same again. */
  lemma PublishedFixpoint(singleton: bool, ps: seq<Probe>, current: set<string>)
    ensures Published(singleton, ps, Published(singleton, ps, current)) == Published(singleton, ps, current)
  {
    var u := Published(singleton, ps, current);
    if singleton {
      PublishedExclusive(ps, current);
      PublishedExclusive(ps, u);
      if u != {} {
        var h :| h in u;
        assert u == {h} && HealthyAt(ps, h);
      }
    } else {
      assert Selected(false, ps, u) == Selected(false, ps, current);
    }
  }

  lemma TouchSettled(s: Store, copies: Endpoints, names: set<string>, healthy: bool, active: set<string>)
    requires forall n :: n in names ==> !Outdated(copies, n, healthy, n in active)
    ensures TouchAll(s, copies, names, healthy, active) == s
  {
    assert TouchedStatuses(s, copies, names, healthy, active) == s.endpoints;
    assert OutdatedNames(copies, names, healthy, active) == {};
  }

  /** Both passes of a report leave a store alone if the copies are up to date. */
  lemma TwoPassesSettled(s: Store, copies: Endpoints, h: set<string>, active: set<string>, u: set<string>)
    requires forall n :: n in h ==> !Outdated(copies, n, true, n in active)
    requires forall n :: n in u ==> !Outdated(copies, n, false, false)
    ensures TouchAll(TouchAll(s, copies, h, true, active), copies, u, false, {}) == s
  {
    TouchSettled(s, copies, h, true, active);
    TouchSettled(s, copies, u, false, {});
  }

  lemma TwoPassesSettle(s: Store, h: set<string>, active: set<string>, u: set<string>)
    requires h !! u
    ensures var t := TouchAll(TouchAll(s, s.endpoints, h, true, active), s.endpoints, u, false, {});
            && (forall n :: n in h ==> !Outdated(t.endpoints, n, true, n in active))
            && (forall n :: n in u ==> !Outdated(t.endpoints, n, false, false))
  {
  }

  lemma StatusReportSettles(s: Store, c: Collected, state: string, message: string)
    requires c.healthy.Keys !! c.unhealthy.Keys
    ensures var t := Settle(StatusReport(s, c, s.lb, s.endpoints, state, message));
            StatusReport(t, c, t.lb, t.endpoints, state, message) == t
  {
    var next := ReportedLb(s.lb.status, true, state, message, c);
    var r := StatusReport(s, c, s.lb, s.endpoints, state, message);
    var t := Settle(r);
    TwoPassesSettle(WriteLb(s, s.lb, next), c.healthy.Keys, c.active.Keys, c.unhealthy.Keys);
    assert t.lb.status == next && ReportedLb(t.lb.status, true, state, message, c) == next;
    assert WriteLb(t, t.lb, next) == t;
    forall n | n in c.healthy.Keys ensures !Outdated(t.endpoints, n, true, n in c.active.Keys) {
      SettleKeepsUpToDate(r, n, true, n in c.active.Keys);
    }
    forall n | n in c.unhealthy.Keys ensures !Outdated(t.endpoints, n, false, false) {
      SettleKeepsUpToDate(r, n, false, false);
    }
    TwoPassesSettled(t, t.endpoints, c.healthy.Keys, c.active.Keys, c.unhealthy.Keys);
  }

  /** Reporting the same gathered round again, on top of its own effect and a pass of the endpoint
      reconciler, writes nothing. */
  lemma ReportSettles(s: Store, c: Collected, cb: Callback)
    requires c.healthy.Keys !! c.unhealthy.Keys
    ensures var t := Settle(Report(s, c, s.lb, s.endpoints, cb)); Report(t, c, t.lb, t.endpoints, cb) == t
  {
    match cb
    case Ready(msg) => StatusReportSettles(s, c, "", msg);
    case Pending(msg) => StatusReportSettles(s, c, STATE_PENDING, msg);
    case Invalid(msg) => StatusReportSettles(s, c, STATE_INVALID, msg);
    case Failed(err) => ErrorSettles(s, c, false, err);
    case Succeeded => StatusReportSettles(s, c, "", "");
  }

  lemma ErrorSettles(s: Store, c: Collected, activeupd: bool, err: string)
    ensures var t := Settle(ErrorReport(s, c, s.lb, activeupd, err)); ErrorReport(t, c, t.lb, activeupd, err) == t
  {
    assert |STATE_ERROR| == 5 && |STATE_PENDING| == 7;
  }

  /** Once the published set is what DNS already says, a round repeated on its own effect writes nothing. */
  lemma SettledRoundIdempotent(inp: RoundInput, current: set<string>, note: string, note': string, s: Store)
    requires Backed(inp.probes) && Updated(inp, current) == current
    ensures var t := Settle(RoundStore(inp, current, note, s)); Settle(RoundStore(inp, current, note', t)) == t
  {
    var c := Handled(inp, current, note);
    assert Handled(inp, current, note') == c;
    HealthPartition(inp.singleton, inp.probes, current, inp.dnsHealthy);
    SettleIdempotent(RoundStore(inp, current, note, s));
    if inp.probes == [] {
      ErrorSettles(s, NOTHING_GATHERED, true, NO_ENDPOINTS);
    } else if FailsInside(inp, current) {
      ErrorSettles(s, c, false, NO_HEALTHY);
    } else if inp.callbacks != [] {
      ReportSettles(s, c, inp.callbacks[0]);
    }
  }

  datatype RunState = RunState(current: set<string>, store: Store)

  /** One round with the given surroundings and announcement text, followed by the endpoint reconciler. */
  ghost function Next(inp: RoundInput, note: string, st: RunState): RunState {
    RunState(Updated(inp, st.current), Settle(RoundStore(inp, st.current, note, st.store)))
  }

  /** The two objects at work compute it, if the round is handed what is stored. */
  method RoundAndReconcile(w: WatchRequest, rec: StateReconciler, api: ApiServer,
                           dnsHealthy: bool, health: seq<bool>, note: string, callbacks: seq<Callback>)
    returns (hosts: set<string>)
    requires |health| == |w.targets| && rec.api == api
    requires w.dnslb == api.store.lb && w.copies == api.store.endpoints
    modifies w`updated, rec`index, api
    ensures RunState(hosts, api.store)
            == Next(old(w.Input(dnsHealthy, health, callbacks)), note, RunState(w.current, old(api.store)))
  {
    hosts := w.RunRound(api, dnsHealthy, health, note, callbacks);
    rec.ReconcileAll();
  }

  /** Rounds with unchanged surroundings, each told what the one before published; the announcement
      texts may differ from round to round. */
  ghost predicate IsRun(inp: RoundInput, notes: seq<string>, states: seq<RunState>) {
    && |states| == |notes| + 1
    && forall i :: 0 <= i < |notes| ==> states[i + 1] == Next(inp, notes[i], states[i])
  }

  lemma {:induction false} CurrentSettles(inp: RoundInput, notes: seq<string>, states: seq<RunState>, n: nat)
    requires IsRun(inp, notes, states) && 1 <= n < |states|
    ensures states[n].current == Updated(inp, states[0].current)
    ensures Updated(inp, states[n].current) == states[n].current
  {
    PublishedFixpoint(inp.singleton, inp.probes, states[0].current);
    assert states[n] == Next(inp, notes[n - 1], states[n - 1]);
    if n > 1 {
      CurrentSettles(inp, notes, states, n - 1);
    }
  }

  /** From any statuses and any published set, the third and every later round writes nothing, neither
      to the load balancer nor to any endpoint. */
  lemma Quiescence(inp: RoundInput, notes: seq<string>, states: seq<RunState>, n: nat)
    requires Backed(inp.probes) && IsRun(inp, notes, states)
    requires 2 <= n < |states| - 1
    ensures states[n + 1] == states[n]
  {
    CurrentSettles(inp, notes, states, n - 1);
    CurrentSettles(inp, notes, states, n);
    assert states[n] == Next(inp, notes[n - 1], states[n - 1]);
    assert states[n + 1] == Next(inp, notes[n], states[n]);
    SettledRoundIdempotent(inp, states[n].current, notes[n - 1], notes[n], states[n - 1].store);
  }

  /** When nothing is healthy the published set is withdrawn; the round fails only if there was
      nothing to withdraw, so the failure shows one round late. */
  lemma LosingAllHealth(inp: RoundInput, current: set<string>)
    ensures !AnyHealthy(inp.probes) ==> Updated(inp, current) == {}
    ensures AnyHealthy(inp.probes) ==> Updated(inp, current) != {}
    ensures FailsInside(inp, current) <==> !AnyHealthy(inp.probes) && current == {}
  {
    FailsInsideIff(inp, current);
    if AnyHealthy(inp.probes) {
      PublishedWhenHealthy(inp, current);
    }
  }

  /** Two rounds are not enough: whenever the last healthy target is lost and feedback other than a failure
      arrives, the first round withdraws the published hosts and the second one has an error to write. */
  lemma SecondRoundWrites(inp: RoundInput, notes: seq<string>, states: seq<RunState>)
    requires IsRun(inp, notes, states) && |notes| == 2
    requires inp.probes != [] && !AnyHealthy(inp.probes) && states[0].current != {}
    requires inp.callbacks != [] && !inp.callbacks[0].Failed?
    ensures states[1].current == {}
    ensures states[2].store.lbWrites > states[1].store.lbWrites
  {
    LosingAllHealth(inp, states[0].current);
    LosingAllHealth(inp, {});
    assert states[1] == Next(inp, notes[0], states[0]) && states[2] == Next(inp, notes[1], states[1]);
    LbReported(states[0].store, Handled(inp, states[0].current, notes[0]), states[0].store.endpoints, inp.callbacks[0]);
    assert states[1].store.lb.status.state != Some(STATE_ERROR);
    assert states[2].store.lb.status.state == Some(STATE_ERROR);
  }
}
