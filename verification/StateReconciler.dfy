/** The reconciler that keeps the state of endpoint objects in line with the existence of their load
    balancer, next to the DNS rounds that write the same field. */
module StateReconciler {
  import opened Api
  import opened Feedback

  /** What looking up the load balancer of an endpoint yields. */
  datatype LbLookup = Unnamed | Known | Missing(msg: string) | Unreadable(msg: string)

  const NO_LOAD_BALANCER := "no load balancer specified"

  function Problem(l: LbLookup): Option<string> {
    match l
    case Unnamed => Some(NO_LOAD_BALANCER)
    case Known => None
    case Missing(msg) => Some(msg)
    case Unreadable(msg) => Some(msg)
  }

  function Reconciled(s: EndpointStatus, l: LbLookup): EndpointStatus {
    if Problem(l).Some? then WithState(s, STATE_INVALID, Problem(l).value, None)
    else if s.state == Some(STATE_INVALID) then WithState(s, STATE_PENDING, "", None)
    else s
  }

  /** `UpdateState` with its modification tracking. */
  method UpdateState(s: EndpointStatus, state: string, msg: string, healthy: Option<bool>)
    returns (t: EndpointStatus, modified: bool)
    ensures t == WithState(s, state, msg, healthy)
    ensures modified <==> t != s
  {
    t, modified := s, false;
    if t.state != Some(state) {
      t, modified := t.(state := Some(state)), true;
    }
    if msg == "" {
      if t.message != None {
        t, modified := t.(message := None), true;
      }
    } else if t.message != Some(msg) {
      t, modified := t.(message := Some(msg)), true;
    }
    if healthy.Some? && t.healthy != healthy.value {
      t, modified := t.(healthy := healthy.value), true;
    }
  }

  // ---- the reconciler ----

  /** Store and object after a pass that was handed `obj`; `ok` tells whether the API server accepts an update
      that is based on the stored version. */
  function Attempt(s: Store, name: string, obj: Versioned<EndpointStatus>, l: LbLookup, ok: bool)
    : (Store, Versioned<EndpointStatus>)
  {
    var next := Reconciled(obj.status, l);
    if next == obj.status then (s, obj)
    else
      var t := s.(epWrites := s.epWrites + multiset{name});
      if ok && name in s.endpoints && s.endpoints[name].version == obj.version then
        (t.(endpoints := t.endpoints[name := Versioned(next, obj.version + 1)]), Versioned(next, obj.version + 1))
      else (t, Versioned(next, obj.version))
  }

  /** The decision of a pass, taken on its object. */
  method ReconcileStatus(s: EndpointStatus, l: LbLookup) returns (t: EndpointStatus, modified: bool)
    ensures t == Reconciled(s, l)
    ensures modified <==> t != s
  {
    t, modified := s, false;
    var err := Problem(l);
    if err.Some? {
      t, modified := UpdateState(s, STATE_INVALID, err.value, None);
    } else if s.state == Some(STATE_INVALID) {
      t, modified := UpdateState(s, STATE_PENDING, "", None);
    }
  }

  class StateReconciler {
    const api: ApiServer
    var index: Endpoints   // the objects the index holds, with which the DNS rounds work

    constructor (api: ApiServer, index: Endpoints)
      ensures this.api == api && this.index == index
    {
      this.api, this.index := api, index;
    }

    /** Every pass is handed its own copy of what the informer has. The index gets that very object first (if it
        files it at all), so a change that cannot be written stays there, but no later pass sees it. */
    method Reconcile(name: string, obj: Versioned<EndpointStatus>, l: LbLookup, filed: bool, ok: bool)
      returns (modified: bool)
      modifies this`index, api
      ensures api.store == Attempt(old(api.store), name, obj, l, ok).0
      ensures index == if filed then old(index)[name := Attempt(old(api.store), name, obj, l, ok).1]
                       else old(index) - {name}
      ensures modified <==> Reconciled(obj.status, l) != obj.status
    {
      index := if filed then index[name := obj] else index - {name};
      var status;
      status, modified := ReconcileStatus(obj.status, l);
      var after := obj.(status := status);
      if modified {
        if ok && name in api.store.endpoints && api.store.endpoints[name].version == obj.version {
          after := after.(version := obj.version + 1);
          api.store := api.store.(endpoints := api.store.endpoints[name := after]);
        }
        api.store := api.store.(epWrites := api.store.epWrites + multiset{name});
      }
      if filed {
        index := index[name := after];
      }
    }

    /** The index holds these endpoints as they are once settled. */
    ghost predicate Indexes(start: Store, done: set<string>)
      reads this`index
    {
      forall n :: n in done && n in start.endpoints ==> n in index && index[n] == Settled(start.endpoints[n])
    }

    method ReconcileNext(n: string, ghost start: Store, ghost done: set<string>)
      requires api.store == SettledPart(start, done) && Indexes(start, done)
      requires n in start.endpoints && n !in done
      modifies this`index, api
      ensures api.store == SettledPart(start, done + {n}) && Indexes(start, done + {n})
    {
      SettleOneMore(start, done, n);
      var _ := Reconcile(n, api.store.endpoints[n], Known, true, true);
    }

    /** The reconciler comes by every stored endpoint once, in any order, all load balancers being there. */
    method ReconcileAll()
      modifies this`index, api
      ensures api.store == Settle(old(api.store))
      ensures forall n :: n in api.store.endpoints ==> n in index && index[n] == api.store.endpoints[n]
    {
      var todo := api.store.endpoints.Keys;
      ghost var start, done := api.store, {};
      SettleNone(start);
      while todo != {}
        invariant todo !! done && todo + done == start.endpoints.Keys
        invariant api.store == SettledPart(start, done) && Indexes(start, done)
      {
        var n :| n in todo;
        ReconcileNext(n, start, done);
        todo, done := todo - {n}, done + {n};
      }
      assert done == start.endpoints.Keys;
      SettleDone(start);
    }
  }

  /** Afterwards the endpoint is Invalid exactly if its load balancer could not be found, and then tells why; an
      Invalid one whose load balancer is back is Pending without a message, and any other stays as it was. A second
      pass changes nothing, and what a DNS round has written stays as long as the load balancer is there. */
  lemma ReconciledRule(s: EndpointStatus, l: LbLookup, healthy: bool, active: bool)
    ensures var t := Reconciled(s, l);
            && (t.state == Some(STATE_INVALID) <==> l != Known)
            && (l == Unnamed ==> t.message == Some("no load balancer specified"))
            && (l.Missing? || l.Unreadable? ==> t.message == if l.msg == "" then None else Some(l.msg))
            && (l == Known && s.state == Some(STATE_INVALID) ==> t.state == Some(STATE_PENDING) && t.message == None)
            && (l == Known && s.state != Some(STATE_INVALID) ==> t == s)
            && t.validUntil == s.validUntil && t.healthy == s.healthy
            && Reconciled(t, l) == t
    ensures Reconciled(EndpointTarget(s, healthy, active), Known) == EndpointTarget(s, healthy, active)
  {
    assert |STATE_INVALID| == 7 && |STATE_ACTIVE| == 6 && |STATE_INACTIVE| == 8;
    assert STATE_INVALID[0] == 'I' && STATE_PENDING[0] == 'P';
  }

  /** An update lands, as the next version, exactly if there is something to change, the API server accepts it and
      the object is the stored version; everything else stays. */
  lemma AttemptRule(s: Store, name: string, obj: Versioned<EndpointStatus>, l: LbLookup, ok: bool)
    ensures var (t, after) := Attempt(s, name, obj, l, ok);
            var changes := Reconciled(obj.status, l) != obj.status;
            var lands := changes && ok && name in s.endpoints && s.endpoints[name].version == obj.version;
            && after.status == Reconciled(obj.status, l)
            && after.version == obj.version + (if lands then 1 else 0)
            && t.endpoints == (if lands then s.endpoints[name := after] else s.endpoints)
            && t.epWrites == s.epWrites + (if changes then multiset{name} else multiset{})
            && t.lb == s.lb && t.lbWrites == s.lbWrites
  {
  }

  // ---- failing updates ----

  /** Passes over one endpoint with the same outcome of the lookup, each handed what is stored. */
  function Passes(s: Store, name: string, l: LbLookup, oks: seq<bool>): Store
    requires name in s.endpoints
    decreases |oks|
  {
    if oks == [] then s else Passes(Attempt(s, name, s.endpoints[name], l, oks[0]).0, name, l, oks[1..])
  }

  /** The updates attempted until one is accepted. */
  function Attempts(oks: seq<bool>): nat {
    if oks == [] then 0 else if oks[0] then 1 else 1 + Attempts(oks[1..])
  }

  /** A state update that fails is attempted again by every later pass until one is accepted; then the endpoint has
      the reconciled status, and nothing more is written. */
  lemma {:induction false} RetriedUntilWritten(s: Store, name: string, l: LbLookup, oks: seq<bool>)
    requires name in s.endpoints
    ensures var t, e := Passes(s, name, l, oks), s.endpoints[name];
            var next := Reconciled(e.status, l);
            if next == e.status then t == s
            else
              t == s.(endpoints := if true in oks then s.endpoints[name := Versioned(next, e.version + 1)]
                                   else s.endpoints,
                      epWrites := s.epWrites[name := s.epWrites[name] + Attempts(oks)])
    decreases |oks|
  {
    if oks != [] {
      var e := s.endpoints[name];
      var t := Attempt(s, name, e, l, oks[0]).0;
      ReconciledRule(e.status, l, false, false);
      RetriedUntilWritten(t, name, l, oks[1..]);
      assert true in oks <==> oks[0] || true in oks[1..];
      assert t.epWrites == if t == s then s.epWrites else s.epWrites[name := s.epWrites[name] + 1];
    }
  }

  /** Meanwhile the index may hold a change that was never written. It makes no difference to what a DNS round
      reports about the endpoint. */
  lemma ReportsIgnoreUnwritten(s: Store, index: Endpoints, name: string, l: LbLookup, healthy: bool, active: bool)
    requires name in s.endpoints
    ensures var changed := index[name := Attempt(s, name, s.endpoints[name], l, false).1];
            var t := TouchEndpoint(s, changed, name, healthy, active);
            name in t.endpoints
            && t.endpoints[name].status == EndpointTarget(s.endpoints[name].status, healthy, active)
  {
    assert |STATE_INVALID| == 7 && |STATE_ACTIVE| == 6 && |STATE_INACTIVE| == 8;
    assert STATE_INVALID[0] == 'I' && STATE_PENDING[0] == 'P';
  }

  // ---- one pass over all endpoints of load balancers that exist ----

  function Unsettled(s: Store): set<string> {
    set n | n in s.endpoints && Reconciled(s.endpoints[n].status, Known) != s.endpoints[n].status
  }

  function Settled(e: Versioned<EndpointStatus>): Versioned<EndpointStatus> {
    var next := Reconciled(e.status, Known);
    if next == e.status then e else Versioned(next, e.version + 1)
  }

  function Settle(s: Store): Store {
    Store(s.lb, map n | n in s.endpoints :: Settled(s.endpoints[n]), s.lbWrites, s.epWrites + multiset(Unsettled(s)))
  }

  function SettledPart(s: Store, done: set<string>): Store {
    Store(s.lb, map n | n in s.endpoints :: if n in done then Settled(s.endpoints[n]) else s.endpoints[n],
          s.lbWrites, s.epWrites + multiset(Unsettled(s) * done))
  }

  lemma SettleNone(s: Store)
    ensures SettledPart(s, {}) == s
  {
    assert SettledPart(s, {}).endpoints == s.endpoints;
    assert Unsettled(s) * {} == {};
  }

  lemma SettleDone(s: Store)
    ensures SettledPart(s, s.endpoints.Keys) == Settle(s)
  {
    assert SettledPart(s, s.endpoints.Keys).endpoints == Settle(s).endpoints;
    assert Unsettled(s) * s.endpoints.Keys == Unsettled(s);
  }

  lemma SettleOneMore(s: Store, done: set<string>, n: string)
    requires n in s.endpoints && n !in done
    ensures var part := SettledPart(s, done);
            && part.endpoints[n] == s.endpoints[n]
            && Attempt(part, n, part.endpoints[n], Known, true) == (SettledPart(s, done + {n}), Settled(s.endpoints[n]))
  {
    var part, more := SettledPart(s, done), SettledPart(s, done + {n});
    var (t, after) := Attempt(part, n, part.endpoints[n], Known, true);
    assert t.endpoints == more.endpoints;
    assert Unsettled(s) * (done + {n}) == Unsettled(s) * done + if n in Unsettled(s) then {n} else {};
    if n in Unsettled(s) {
      assert multiset(Unsettled(s) * done + {n}) == multiset(Unsettled(s) * done) + multiset{n};
    }
    assert t.epWrites == more.epWrites;
  }

  lemma SettleIdempotent(s: Store)
    ensures Settle(Settle(s)) == Settle(s)
  {
    var t := Settle(s);
    forall n | n in t.endpoints ensures Reconciled(t.endpoints[n].status, Known) == t.endpoints[n].status {
      ReconciledRule(s.endpoints[n].status, Known, false, false);
    }
    assert Unsettled(t) == {};
    assert Settle(t).endpoints == t.endpoints;
  }

  /** A settling pass never makes an endpoint outdated that a round has just brought up to date. */
  lemma SettleKeepsUpToDate(s: Store, n: string, healthy: bool, active: bool)
    requires !Outdated(s.endpoints, n, healthy, active)
    ensures !Outdated(Settle(s).endpoints, n, healthy, active)
  {
    if n in s.endpoints {
      ReconciledRule(s.endpoints[n].status, Known, healthy, active);
    }
  }
}
