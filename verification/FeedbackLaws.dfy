/** What the feedback of a round promises: one status write at most, one canonical active list. */
module FeedbackLaws {
  import opened Api
  import opened Ordering
  import opened Selection
  import opened Feedback
  import opened Round

  // ---- canonical active list ----

  /** However the active map is iterated, the sorted list that is stored is the same. */
  lemma ActiveListIgnoresOrder(active: map<string, EndpointRef>, keys: seq<string>)
    requires Distinct(keys) && Elements(keys) == active.Keys
    ensures forall k :: k in Sort(keys) ==> k in active
    ensures EntriesFor(Sort(keys), active) == ActiveList(active)
  {
    SortIsCanonical(keys);
    assert forall k :: k in Sort(keys) ==> k in Elements(Sort(keys));
  }

  /** One entry per active endpoint, with its address and host name, strictly sorted by name. */
  lemma ActiveListShape(active: map<string, EndpointRef>)
    requires forall k :: k in active ==> active[k].name == k
    ensures |ActiveList(active)| == |active|
    ensures forall i, j :: 0 <= i < j < |ActiveList(active)| ==>
                             Less(ActiveList(active)[i].endpoint, ActiveList(active)[j].endpoint)
    ensures forall e: ActiveEntry :: e in ActiveList(active) <==>
              && e.endpoint in active && e == EntryOf(active[e.endpoint])
              && e.ipAddress == active[e.endpoint].ipAddress && e.cname == active[e.endpoint].cname
  {
    var keys, list := SortedKeys(active.Keys), ActiveList(active);
    forall i | 0 <= i < |keys| ensures keys[i] in active && list[i].endpoint == keys[i] {
      assert keys[i] in Elements(keys);
    }
    DistinctSize(keys);
    assert |active| == |active.Keys|;
    forall e: ActiveEntry | e.endpoint in active && e == EntryOf(active[e.endpoint]) ensures e in list {
      assert e.endpoint in Elements(keys);
      var i :| 0 <= i < |keys| && keys[i] == e.endpoint;
      assert list[i] == e;
    }
  }

  lemma {:induction false} DistinctSize(keys: seq<string>)
    requires StrictlySorted(keys)
    ensures |Elements(keys)| == |keys|
  {
    if keys == [] {
    } else {
      TailElements(keys);
      DistinctSize(keys[1..]);
      assert keys[0] in Elements(keys);
    }
  }

  /** The stored list determines the active map. */
  lemma ActiveListDetermines(a: map<string, EndpointRef>, b: map<string, EndpointRef>)
    requires forall k :: k in a ==> a[k].name == k
    requires forall k :: k in b ==> b[k].name == k
    ensures ActiveList(a) == ActiveList(b) <==> a == b
  {
    ActiveListShape(a);
    ActiveListShape(b);
    if ActiveList(a) == ActiveList(b) {
      forall k | k in a ensures k in b && b[k] == a[k] {
        assert EntryOf(a[k]) in ActiveList(a);
      }
      forall k | k in b ensures k in a {
        assert EntryOf(b[k]) in ActiveList(b);
      }
      assert a == b;
    }
  }

  /** The deep-equality test before the update sees a difference exactly when the state, the message
      or the content of the active map differs. */
  lemma UpdateDetectedIff(prev: LbStatus, before: Collected, after: Collected,
                         st: string, msg: string, st': string, msg': string)
    requires before.Keyed() && after.Keyed()
    requires st != "" && st' != ""
    ensures ReportedLb(prev, true, st, msg, before) == ReportedLb(prev, true, st', msg', after)
            <==> st == st' && msg == msg' && before.active == after.active
  {
    ActiveListDetermines(before.active, after.active);
    assert |before.active| == 0 ==> before.active == map[];
    assert |after.active| == 0 ==> after.active == map[];
  }

  // ---- once-only feedback ----

  /** A completed feedback attempts at most one load balancer write and, when no endpoint was found
      both healthy and unhealthy, at most one write of any endpoint n of the round and none of another;
      a failure writes no endpoint. */
  lemma WritesAtMostOnce(s: Store, c: Collected, prev: Versioned<LbStatus>, copies: Endpoints, cb: Callback, n: string)
    requires c.healthy.Keys !! c.unhealthy.Keys
    ensures var t := Report(s, c, prev, copies, cb);
            && s.lbWrites <= t.lbWrites <= s.lbWrites + 1
            && s.epWrites[n] <= t.epWrites[n]
            && t.epWrites[n] <= s.epWrites[n] + (if (n in c.healthy || n in c.unhealthy) && !cb.Failed? then 1 else 0)
            && (cb.Failed? ==> t.endpoints == s.endpoints)
  {
  }

  lemma ErrorWrites(s: Store, c: Collected, prev: Versioned<LbStatus>, activeupd: bool, err: string)
    ensures var t := ErrorReport(s, c, prev, activeupd, err);
            && s.lbWrites <= t.lbWrites <= s.lbWrites + 1
            && t.endpoints == s.endpoints && t.epWrites == s.epWrites
  {
  }

  lemma RoundFiles(inp: RoundInput, current: set<string>, note: string)
    requires Backed(inp.probes)
    ensures var c := Handled(inp, current, note);
            c.healthy.Keys !! c.unhealthy.Keys && c.healthy.Keys + c.unhealthy.Keys == ProbedNames(inp)
  {
    var c := Gathered(inp.singleton, inp.probes, current, inp.dnsHealthy);
    assert Partitioned(c, inp.probes) by {
      HealthPartition(inp.singleton, inp.probes, current, inp.dnsHealthy);
    }
    PartNames(c, inp);
    HandledMaps(inp, current, note);
  }

  lemma PartNames(c: Collected, inp: RoundInput)
    requires Partitioned(c, inp.probes)
    ensures c.healthy.Keys !! c.unhealthy.Keys && c.healthy.Keys + c.unhealthy.Keys == ProbedNames(inp)
  {
  }

  function ProbedNames(inp: RoundInput): set<string> {
    set p | p in inp.probes :: EndpointName(p)
  }

  /** The same for whole rounds, whether they end in a callback, without endpoints or without health: one write
      of the load balancer, one of each probed endpoint, and none of an endpoint unless a callback other than a
      failure arrives while there is something healthy or something to withdraw. */
  lemma RoundWritesAtMostOnce(inp: RoundInput, current: set<string>, note: string, s: Store,
                              prev: Versioned<LbStatus>, copies: Endpoints, n: string)
    requires Backed(inp.probes)
    ensures var t := RoundEffect(inp, current, note, s, prev, copies);
            && s.lbWrites <= t.lbWrites <= s.lbWrites + 1
            && s.epWrites[n] <= t.epWrites[n] <= s.epWrites[n] + 1
            && (t.epWrites[n] != s.epWrites[n] || t.endpoints != s.endpoints ==>
                  && (AnyHealthy(inp.probes) || current != {})
                  && inp.callbacks != [] && !inp.callbacks[0].Failed?)
            && (t.epWrites[n] != s.epWrites[n] ==> n in ProbedNames(inp))
  {
    FailsInsideIff(inp, current);
    if inp.probes == [] {
      ErrorWrites(s, NOTHING_GATHERED, prev, true, NO_ENDPOINTS);
    } else if FailsInside(inp, current) {
      ErrorWrites(s, Handled(inp, current, note), prev, false, NO_HEALTHY);
    } else if inp.callbacks != [] {
      RoundFiles(inp, current, note);
      WritesAtMostOnce(s, Handled(inp, current, note), prev, copies, inp.callbacks[0], n);
    }
  }

  lemma TouchedAt(s: Store, copies: Endpoints, names: set<string>, healthy: bool, active: set<string>, n: string)
    requires n in s.endpoints
    ensures var t := TouchAll(s, copies, names, healthy, active);
            && n in t.endpoints
            && t.endpoints[n]
               == if n in names && Outdated(copies, n, healthy, n in active) && Current(s, copies, n)
                  then Refreshed(copies[n], healthy, n in active)
                  else s.endpoints[n]
  {
  }

  /** What a report makes of one stored endpoint. */
  function ReportedEndpoint(s: Store, c: Collected, copies: Endpoints, n: string): Versioned<EndpointStatus>
    requires n in s.endpoints
  {
    var healthy, active := n in c.healthy, n in c.healthy && n in c.active;
    if (n in c.healthy || n in c.unhealthy) && Current(s, copies, n) && Outdated(copies, n, healthy, active)
    then Refreshed(copies[n], healthy, active)
    else s.endpoints[n]
  }

  lemma StatusReportedAt(s: Store, c: Collected, prev: Versioned<LbStatus>, copies: Endpoints,
                         state: string, message: string, n: string)
    requires c.healthy.Keys !! c.unhealthy.Keys && n in s.endpoints
    ensures var t := StatusReport(s, c, prev, copies, state, message);
            n in t.endpoints && t.endpoints[n] == ReportedEndpoint(s, c, copies, n)
  {
    var s1 := WriteLb(s, prev, ReportedLb(prev.status, true, state, message, c));
    TouchedAt(s1, copies, c.healthy.Keys, true, c.active.Keys, n);
    TouchedAt(TouchAll(s1, copies, c.healthy.Keys, true, c.active.Keys), copies, c.unhealthy.Keys, false, {}, n);
  }

  lemma ReportedAt(s: Store, c: Collected, prev: Versioned<LbStatus>, copies: Endpoints, cb: Callback, n: string)
    requires c.healthy.Keys !! c.unhealthy.Keys && n in s.endpoints && !cb.Failed?
    ensures var t := Report(s, c, prev, copies, cb);
            n in t.endpoints && t.endpoints[n] == ReportedEndpoint(s, c, copies, n)
  {
    match cb
    case Ready(msg) => StatusReportedAt(s, c, prev, copies, "", msg, n);
    case Pending(msg) => StatusReportedAt(s, c, prev, copies, STATE_PENDING, msg, n);
    case Invalid(msg) => StatusReportedAt(s, c, prev, copies, STATE_INVALID, msg, n);
    case Succeeded => StatusReportedAt(s, c, prev, copies, "", "", n);
  }

  /** After any feedback but a failure, an endpoint of the round whose copy is what is stored carries its probed
      health and is Active exactly when it is in the active map, else Inactive. All others, and those whose copy
      is no longer the stored version, are untouched, and so are the deadlines. */
  lemma EndpointReported(s: Store, c: Collected, prev: Versioned<LbStatus>, copies: Endpoints, cb: Callback, n: string)
    requires c.healthy.Keys !! c.unhealthy.Keys && c.active.Keys <= c.healthy.Keys
    requires !cb.Failed? && n in s.endpoints
    ensures n in Report(s, c, prev, copies, cb).endpoints
    ensures var e := Report(s, c, prev, copies, cb).endpoints[n];
            if (n in c.healthy || n in c.unhealthy) && n in copies && copies[n].version == s.endpoints[n].version then
              copies[n] == s.endpoints[n] ==>
                && e.status.validUntil == s.endpoints[n].status.validUntil
                && e.status.healthy == (n in c.healthy)
                && e.status.message == None
                && (e.status.state == Some(STATE_ACTIVE) <==> n in c.active)
                && (e.status.state == Some(STATE_INACTIVE) <==> n !in c.active)
            else e == s.endpoints[n]
  {
    assert |STATE_ACTIVE| == 6 && |STATE_INACTIVE| == 8;
    assert n in c.active ==> n in c.active.Keys;
    ReportedAt(s, c, prev, copies, cb, n);
  }

  /** A copy of the load balancer that is no longer the stored version changes nothing. */
  lemma OldCopyReportsNothing(s: Store, c: Collected, prev: Versioned<LbStatus>, copies: Endpoints, cb: Callback)
    requires prev.version != s.lb.version
    ensures Report(s, c, prev, copies, cb).lb == s.lb
  {
  }

  /** What the stored status says afterwards: Healthy exactly if the DNS name answers and nothing was
      wrong, Pending and Invalid exactly after those callbacks, and Error exactly after a failure, then with
      the announced replacement in front. */
  lemma LbReported(s: Store, c: Collected, copies: Endpoints, cb: Callback)
    ensures var t := Report(s, c, s.lb, copies, cb).lb.status;
            && (t.state == Some(STATE_HEALTHY) <==> (cb.Ready? || cb.Succeeded?) && c.ishealthy)
            && (t.state == Some(STATE_UNREACHABLE) <==> (cb.Ready? || cb.Succeeded?) && !c.ishealthy)
            && (t.state == Some(STATE_ERROR) <==> cb.Failed?)
            && (t.state == Some(STATE_PENDING) <==> cb.Pending?)
            && (t.state == Some(STATE_INVALID) <==> cb.Invalid?)
            && (t.message == None <==> cb.Succeeded? || (cb.msg == "" && (cb.Failed? ==> c.message == "")))
            && (cb.Failed? && c.message != "" ==> t.message == Some(c.message + ": " + cb.msg))
            && (!cb.Succeeded? && cb.msg != "" && (cb.Failed? ==> c.message == "") ==> t.message == Some(cb.msg))
  {
    assert |STATE_ERROR| == 5 && |STATE_UNREACHABLE| == 11;
    assert STATE_HEALTHY[0] == 'H' && STATE_PENDING[0] == 'P' && STATE_INVALID[0] == 'I';
  }

  /** A report that changes the load balancer attempts one write and makes one new version; one that does not
      attempts none. */
  lemma LbVersion(s: Store, c: Collected, copies: Endpoints, cb: Callback)
    ensures var t := Report(s, c, s.lb, copies, cb);
            var changed := t.lb.status != s.lb.status;
            && t.lb.version == s.lb.version + (if changed then 1 else 0)
            && t.lbWrites == s.lbWrites + (if changed then 1 else 0)
  {
  }

  /** The same for an endpoint of the round whose copy is what is stored. */
  lemma EndpointVersion(s: Store, c: Collected, prev: Versioned<LbStatus>, copies: Endpoints, cb: Callback, n: string)
    requires c.healthy.Keys !! c.unhealthy.Keys && (n in c.healthy || n in c.unhealthy)
    requires n in s.endpoints && n in copies && copies[n] == s.endpoints[n] && !cb.Failed?
    ensures var t := Report(s, c, prev, copies, cb);
            && n in t.endpoints
            && var changed := t.endpoints[n].status != s.endpoints[n].status;
               && t.endpoints[n].version == s.endpoints[n].version + (if changed then 1 else 0)
               && t.epWrites[n] == s.epWrites[n] + (if changed then 1 else 0)
  {
    ReportedAt(s, c, prev, copies, cb, n);
  }

  // ---- what a round reports about the load balancer ----

  /** The stored status after the first callback, given the pending announcement. */
  ghost predicate Tells(t: LbStatus, cb: Callback, announced: string, dnsHealthy: bool) {
    match cb
    case Failed(err) =>
      && t.state == Some(STATE_ERROR) && t.active == None
      && (announced != "" ==> t.message == Some(announced + ": " + err))
      && (announced == "" ==> t.message == if err == "" then None else Some(err))
    case Pending(msg) => t.state == Some(STATE_PENDING) && t.message == if msg == "" then None else Some(msg)
    case Invalid(msg) => t.state == Some(STATE_INVALID) && t.message == if msg == "" then None else Some(msg)
    case Ready(msg) =>
      && t.state == Some(if dnsHealthy then STATE_HEALTHY else STATE_UNREACHABLE)
      && t.message == if msg == "" then None else Some(msg)
    case Succeeded =>
      t.state == Some(if dnsHealthy then STATE_HEALTHY else STATE_UNREACHABLE) && t.message == None
  }

  lemma CallbackTells(s: Store, c: Collected, copies: Endpoints, cb: Callback)
    ensures Tells(Report(s, c, s.lb, copies, cb).lb.status, cb, c.message, c.ishealthy)
  {
    if cb.Failed? {
      FailureReported(s, c, cb.msg);
    }
  }

  /** From the inputs alone, for a copy of the load balancer that is what is stored. Without targets, and without
      health where nothing is to be withdrawn, the round reports its own error; otherwise the first callback
      decides, and a failure is preceded by the announcement if the published hosts change. */
  lemma RoundReported(inp: RoundInput, current: set<string>, note: string, s: Store, copies: Endpoints)
    ensures var t := RoundEffect(inp, current, note, s, s.lb, copies).lb.status;
            var changes := Published(inp.singleton, inp.probes, current) != current;
            if inp.probes == [] then
              t.state == Some(STATE_ERROR) && t.message == Some("no endpoints configured") && t.active == None
            else if !AnyHealthy(inp.probes) && current == {} then
              t.state == Some(STATE_ERROR) && t.message == Some("no healthy targets found") && t.active == None
            else if inp.callbacks == [] then t == s.lb.status
            else Tells(t, inp.callbacks[0], if changes then note else "", inp.dnsHealthy)
  {
    FailsInsideIff(inp, current);
    HandledMessage(inp, current, note);
    if inp.probes == [] || FailsInside(inp, current) {
      RoundError(inp, current, note, s, copies);
    } else if inp.callbacks != [] {
      CallbackTells(s, Handled(inp, current, note), copies, inp.callbacks[0]);
    }
  }

  lemma RoundError(inp: RoundInput, current: set<string>, note: string, s: Store, copies: Endpoints)
    requires inp.probes == [] || FailsInside(inp, current)
    ensures var t := RoundEffect(inp, current, note, s, s.lb, copies).lb.status;
            && t.state == Some(STATE_ERROR) && t.active == None
            && t.message == Some(if inp.probes == [] then "no endpoints configured" else "no healthy targets found")
  {
    assert |STATE_ERROR| == 5 && |STATE_PENDING| == 7;
    HandledMessage(inp, current, note);
    if inp.probes != [] {
      FailureReported(s, Handled(inp, current, note), NO_HEALTHY);
    }
  }

  lemma FailureReported(s: Store, c: Collected, err: string)
    ensures var t := ErrorReport(s, c, s.lb, false, err).lb.status;
            && t.state == Some(STATE_ERROR) && t.active == None
            && (c.message != "" ==> t.message == Some(c.message + ": " + err))
            && (c.message == "" && err != "" ==> t.message == Some(err))
            && (c.message == "" && err == "" ==> t.message == None)
  {
    assert |STATE_ERROR| == 5 && |STATE_PENDING| == 7;
  }

  /** Nothing but the load balancer's own check decides its health, and the announcement is pending exactly if
      the published hosts change. */
  lemma HandledMessage(inp: RoundInput, current: set<string>, note: string)
    ensures var c := Handled(inp, current, note);
            && c.ishealthy == inp.dnsHealthy
            && c.message == if Published(inp.singleton, inp.probes, current) != current then note else ""
  {
    ProbingShape(inp.singleton, inp.probes, inp.dnsHealthy);
  }
}
