/** The feedback object of a DNS round: it gathers the probed endpoints and turns the first
    completing callback into status writes. */
module Feedback {
  import opened Api
  import opened Ordering
  import opened Selection

  datatype Callback = Ready(msg: string) | Pending(msg: string) | Invalid(msg: string) | Failed(msg: string) | Succeeded

  type Endpoints = map<string, Versioned<EndpointStatus>>

  /** The stored objects, and a count of the writes attempted on them. */
  datatype Store =
    Store(lb: Versioned<LbStatus>, endpoints: Endpoints, lbWrites: nat, epWrites: multiset<string>)

  /** The API server as the round sees it. */
  class ApiServer {
    var store: Store

    constructor (s: Store)
      ensures store == s
    {
      store := s;
    }
  }

  /** What a round has gathered by the time feedback arrives. */
  datatype Collected = Collected(
    message: string,
    hcount: nat,
    ishealthy: bool,
    active: map<string, EndpointRef>,
    healthy: map<string, EndpointRef>,
    unhealthy: map<string, EndpointRef>)
  {
    /** Endpoints are filed under their own names. */
    ghost predicate Keyed() {
      && (forall k :: k in active ==> active[k].name == k)
      && (forall k :: k in healthy ==> healthy[k].name == k)
      && (forall k :: k in unhealthy ==> unhealthy[k].name == k)
    }
  }

  // ---- what is to be written ----

  function EntryOf(e: EndpointRef): ActiveEntry {
    ActiveEntry(e.name, e.ipAddress, e.cname)
  }

  function EntriesFor(keys: seq<string>, active: map<string, EndpointRef>): seq<ActiveEntry>
    requires forall k :: k in keys ==> k in active
  {
    seq(|keys|, i requires 0 <= i < |keys| => EntryOf(active[keys[i]]))
  }

  ghost function ActiveList(active: map<string, EndpointRef>): seq<ActiveEntry> {
    var keys := SortedKeys(active.Keys);
    assert forall k :: k in keys ==> k in Elements(keys);
    EntriesFor(keys, active)
  }

  ghost function ReportedLb(prev: LbStatus, activeupd: bool, state: string, message: string, c: Collected): LbStatus {
    var st := if state != "" then state else if c.ishealthy then STATE_HEALTHY else STATE_UNREACHABLE;
    LbStatus(
      Some(st),
      MessageOf(message),
      if activeupd then (if |c.active| > 0 then Some(ActiveList(c.active)) else None)
      else if st != "" && st != STATE_PENDING then None
      else prev.active)
  }

  /** An update based on the copy `prev`; no call is made if there is nothing to change. */
  function WriteLb(s: Store, prev: Versioned<LbStatus>, next: LbStatus): Store {
    if next == prev.status then s
    else
      s.(lb := if s.lb.version == prev.version then Versioned(next, prev.version + 1) else s.lb,
         lbWrites := s.lbWrites + 1)
  }

  function EndpointTarget(s: EndpointStatus, healthy: bool, active: bool): EndpointStatus {
    WithState(s, if active then STATE_ACTIVE else STATE_INACTIVE, "", Some(healthy))
  }

  /** The copy of the endpoint is the stored version. */
  predicate Current(s: Store, copies: Endpoints, name: string) {
    name in copies && name in s.endpoints && s.endpoints[name].version == copies[name].version
  }

  /** The copy differs from what is to be reported. */
  predicate Outdated(copies: Endpoints, name: string, healthy: bool, active: bool) {
    name in copies && EndpointTarget(copies[name].status, healthy, active) != copies[name].status
  }

  function Refreshed(copy: Versioned<EndpointStatus>, healthy: bool, active: bool): Versioned<EndpointStatus> {
    Versioned(EndpointTarget(copy.status, healthy, active), copy.version + 1)
  }

  /** The effect of one `_updateEndpointStatus` on the copy it is given: a write to a vanished endpoint or
      with an old version is attempted and refused. */
  function TouchEndpoint(s: Store, copies: Endpoints, name: string, healthy: bool, active: bool): Store {
    if Outdated(copies, name, healthy, active) then
      s.(endpoints := if Current(s, copies, name)
                      then s.endpoints[name := Refreshed(copies[name], healthy, active)]
                      else s.endpoints,
         epWrites := s.epWrites + multiset{name})
    else s
  }

  /** The names a pass over `names` has to write. */
  function OutdatedNames(copies: Endpoints, names: set<string>, healthy: bool, active: set<string>): set<string> {
    set n | n in names && Outdated(copies, n, healthy, n in active)
  }

  function TouchedStatuses(s: Store, copies: Endpoints, names: set<string>, healthy: bool, active: set<string>)
    : Endpoints
  {
    map n | n in s.endpoints ::
      if n in names && Outdated(copies, n, healthy, n in active) && Current(s, copies, n)
      then Refreshed(copies[n], healthy, n in active)
      else s.endpoints[n]
  }

  /** The effect of touching a set of endpoints once each, in any order. */
  function TouchAll(s: Store, copies: Endpoints, names: set<string>, healthy: bool, active: set<string>): Store {
    Store(s.lb, TouchedStatuses(s, copies, names, healthy, active), s.lbWrites,
          s.epWrites + multiset(OutdatedNames(copies, names, healthy, active)))
  }

  lemma TouchNone(s: Store, copies: Endpoints, healthy: bool, active: set<string>)
    ensures TouchAll(s, copies, {}, healthy, active) == s
  {
    assert TouchedStatuses(s, copies, {}, healthy, active) == s.endpoints;
    assert OutdatedNames(copies, {}, healthy, active) == {};
  }

  lemma StatusesOneMore(s: Store, copies: Endpoints, names: set<string>, k: string, healthy: bool, active: set<string>)
    requires k !in names
    ensures TouchedStatuses(s, copies, names + {k}, healthy, active)
            == if Outdated(copies, k, healthy, k in active) && Current(s, copies, k)
               then TouchedStatuses(s, copies, names, healthy, active)[k := Refreshed(copies[k], healthy, k in active)]
               else TouchedStatuses(s, copies, names, healthy, active)
  {
  }

  lemma TouchOneMore(s: Store, copies: Endpoints, names: set<string>, k: string, healthy: bool, active: set<string>)
    requires k !in names
    ensures TouchEndpoint(TouchAll(s, copies, names, healthy, active), copies, k, healthy, k in active)
            == TouchAll(s, copies, names + {k}, healthy, active)
  {
    StatusesOneMore(s, copies, names, k, healthy, active);
    OutdatedOneMore(copies, names, k, healthy, active);
    var t := TouchAll(s, copies, names, healthy, active);
    assert k in s.endpoints ==> t.endpoints[k] == s.endpoints[k];
  }

  lemma OutdatedOneMore(copies: Endpoints, names: set<string>, k: string, healthy: bool, active: set<string>)
    requires k !in names
    ensures multiset(OutdatedNames(copies, names + {k}, healthy, active))
            == multiset(OutdatedNames(copies, names, healthy, active))
               + if Outdated(copies, k, healthy, k in active) then multiset{k} else multiset{}
  {
    var a, b := OutdatedNames(copies, names, healthy, active), OutdatedNames(copies, names + {k}, healthy, active);
    if Outdated(copies, k, healthy, k in active) {
      assert b == a + {k};
      assert multiset(b) == multiset(a) + multiset{k};
    } else {
      assert b == a;
    }
  }

  ghost function ErrorReport(s: Store, c: Collected, prev: Versioned<LbStatus>, activeupd: bool, err: string): Store {
    var msg := if c.message != "" then c.message + ": " + err else err;
    WriteLb(s, prev, ReportedLb(prev.status, activeupd, STATE_ERROR, msg, c))
  }

  ghost function StatusReport(
    s: Store, c: Collected, prev: Versioned<LbStatus>, copies: Endpoints, state: string, message: string): Store
  {
    var s1 := WriteLb(s, prev, ReportedLb(prev.status, true, state, message, c));
    TouchAll(TouchAll(s1, copies, c.healthy.Keys, true, c.active.Keys), copies, c.unhealthy.Keys, false, {})
  }

  /** The effect of the first completing callback, given the copies of the load balancer and the endpoints
      that the round works with. */
  ghost function Report(s: Store, c: Collected, prev: Versioned<LbStatus>, copies: Endpoints, cb: Callback): Store {
    match cb
    case Ready(msg) => StatusReport(s, c, prev, copies, "", msg)
    case Pending(msg) => StatusReport(s, c, prev, copies, STATE_PENDING, msg)
    case Invalid(msg) => StatusReport(s, c, prev, copies, STATE_INVALID, msg)
    case Failed(err) => ErrorReport(s, c, prev, false, err)
    case Succeeded => StatusReport(s, c, prev, copies, "", "")
  }

  // ---- the object ----

  class DNSDone {
    const api: ApiServer
    const dnslb: Versioned<LbStatus>
    const copies: Endpoints
    var done: bool
    var message: string
    var hcount: nat
    var ishealthy: bool
    var active: map<string, EndpointRef>
    var healthy: map<string, EndpointRef>
    var unhealthy: map<string, EndpointRef>

    ghost function View(): Collected
      reads this
    {
      Collected(message, hcount, ishealthy, active, healthy, unhealthy)
    }

    ghost predicate Valid()
      reads this
    {
      View().Keyed()
    }

    constructor (api: ApiServer, dnslb: Versioned<LbStatus>, copies: Endpoints)
      ensures Valid() && !done && this.api == api && this.dnslb == dnslb && this.copies == copies
      ensures View() == Collected("", 0, false, map[], map[], map[])
    {
      this.api, this.dnslb, this.copies := api, dnslb, copies;
      done, message, hcount, ishealthy := false, "", 0, false;
      active, healthy, unhealthy := map[], map[], map[];
    }

    method SetHealthy(a: bool)
      modifies this
      ensures View() == old(View()).(ishealthy := a) && done == old(done)
    {
      ishealthy := a;
    }

    method SetMessage(msg: string)
      modifies this
      ensures View() == old(View()).(message := msg) && done == old(done)
    {
      message := msg;
    }

    method AddHealthyTarget(target: Target)
      modifies this
      ensures View() == old(WithHealthy(View(), target)) && done == old(done)
      ensures hcount == old(hcount) + 1
      ensures healthy == if target.dnsep.None? then old(healthy)
                         else old(healthy)[target.dnsep.value.name := target.dnsep.value]
      ensures active == old(active) && unhealthy == old(unhealthy)
      ensures message == old(message) && ishealthy == old(ishealthy)
    {
      hcount := hcount + 1;
      if target.dnsep.Some? {
        healthy := healthy[target.dnsep.value.name := target.dnsep.value];
      }
    }

    method AddActiveTarget(target: Target)
      modifies this
      ensures View() == old(WithActive(View(), target)) && done == old(done)
      ensures hcount == old(hcount) + 1
      ensures active == if target.dnsep.None? then old(active)
                        else old(active)[target.dnsep.value.name := target.dnsep.value]
      ensures healthy == old(healthy) && unhealthy == old(unhealthy)
      ensures message == old(message) && ishealthy == old(ishealthy)
    {
      hcount := hcount + 1;
      if target.dnsep.Some? {
        active := active[target.dnsep.value.name := target.dnsep.value];
      }
    }

    method AddUnhealthyTarget(target: Target)
      modifies this
      ensures View() == old(WithUnhealthy(View(), target)) && done == old(done)
      ensures unhealthy == if target.dnsep.None? then old(unhealthy)
                           else old(unhealthy)[target.dnsep.value.name := target.dnsep.value]
      ensures hcount == old(hcount) && active == old(active) && healthy == old(healthy)
      ensures message == old(message) && ishealthy == old(ishealthy)
    {
      if target.dnsep.Some? {
        unhealthy := unhealthy[target.dnsep.value.name := target.dnsep.value];
      }
    }

    function HasHealthy(): bool
      reads this
    {
      hcount != 0
    }

    method UpdateLoadBalancerStatus(activeupd: bool, state: string, message: string)
      requires Valid()
      modifies api
      ensures api.store
              == WriteLb(old(api.store), dnslb, ReportedLb(dnslb.status, activeupd, state, message, View()))
    {
      var status := dnslb.status;
      var st := state;
      if st == "" {
        if ishealthy { st := STATE_HEALTHY; } else { st := STATE_UNREACHABLE; }
      }
      status := status.(state := Some(st));
      if message != "" {
        status := status.(message := Some(message));
      } else {
        status := status.(message := None);
      }
      if activeupd {
        if |active| > 0 {
          var list := CollectActive();
          status := status.(active := Some(list));
        } else {
          status := status.(active := None);
        }
      } else if st != "" && st != STATE_PENDING {
        status := status.(active := None);
      }
      if dnslb.status != status {
        if api.store.lb.version == dnslb.version {
          api.store := api.store.(lb := Versioned(status, dnslb.version + 1));
        }
        api.store := api.store.(lbWrites := api.store.lbWrites + 1);
      }
    }

    /** Gathers the active names in whatever order the map yields them, and sorts them. */
    method ActiveKeys() returns (keys: seq<string>)
      requires Valid()
      ensures keys == SortedKeys(active.Keys)
    {
      keys := [];
      var todo := active.Keys;
      while todo != {}
        invariant todo <= active.Keys
        invariant Distinct(keys)
        invariant Elements(keys) == active.Keys - todo
      {
        var k :| k in todo;
        assert k !in Elements(keys);
        assert Elements(keys + [k]) == Elements(keys) + {k};
        keys := keys + [active[k].name];
        todo := todo - {k};
      }
      assert Elements(keys) == active.Keys;
      SortIsCanonical(keys);
      keys := Sort(keys);
    }

    method CollectActive() returns (list: seq<ActiveEntry>)
      requires Valid()
      ensures list == ActiveList(active)
    {
      var keys := ActiveKeys();
      assert forall k :: k in keys ==> k in Elements(keys);
      list := [];
      for i := 0 to |keys|
        invariant |list| == i && forall j :: 0 <= j < i ==> list[j] == EntryOf(active[keys[j]])
      {
        assert keys[i] in keys;
        var t := active[keys[i]];
        list := list + [ActiveEntry(t.name, t.ipAddress, t.cname)];
      }
      assert list == EntriesFor(keys, active);
    }

    method UpdateEndpointStatus(name: string, healthy: bool, active: bool)
      modifies api
      ensures api.store == TouchEndpoint(old(api.store), copies, name, healthy, active)
    {
      var state := STATE_INACTIVE;
      if active {
        state := STATE_ACTIVE;
      }
      if name in copies {
        var status := copies[name].status;
        var mod := false;
        if status.state != Some(state) {
          status, mod := status.(state := Some(state)), true;
        }
        if status.message != None {
          status, mod := status.(message := None), true;
        }
        if status.healthy != healthy {
          status, mod := status.(healthy := healthy), true;
        }
        if mod {
          if name in api.store.endpoints && api.store.endpoints[name].version == copies[name].version {
            var next := Versioned(status, copies[name].version + 1);
            api.store := api.store.(endpoints := api.store.endpoints[name := next]);
          }
          api.store := api.store.(epWrites := api.store.epWrites + multiset{name});
        }
      }
    }

    /** One loop over a map of endpoints, in whatever order the map yields them. */
    method UpdateEndpoints(eps: map<string, EndpointRef>, healthy: bool, active: map<string, EndpointRef>)
      requires forall k :: k in eps ==> eps[k].name == k
      modifies api
      ensures api.store == TouchAll(old(api.store), copies, eps.Keys, healthy, active.Keys)
    {
      var todo := eps.Keys;
      ghost var touched := {};
      TouchNone(api.store, copies, healthy, active.Keys);
      while todo != {}
        invariant todo !! touched && todo + touched == eps.Keys
        invariant api.store == TouchAll(old(api.store), copies, touched, healthy, active.Keys)
      {
        var k :| k in todo;
        TouchOneMore(old(api.store), copies, touched, k, healthy, active.Keys);
        UpdateEndpointStatus(eps[k].name, healthy, eps[k].name in active);
        todo, touched := todo - {k}, touched + {k};
      }
      assert touched == eps.Keys;
    }

    method UpdateStatus(state: string, message: string)
      requires Valid()
      modifies this`done, api
      ensures done
      ensures api.store == if old(done) then old(api.store)
                           else StatusReport(old(api.store), View(), dnslb, copies, state, message)
    {
      if !done {
        done := true;
        UpdateLoadBalancerStatus(true, state, message);
        UpdateEndpoints(healthy, true, active);
        var none: map<string, EndpointRef> := map[];
        assert none.Keys == {};
        UpdateEndpoints(unhealthy, false, none);
      }
    }

    method Error(activeupd: bool, err: string)
      requires Valid()
      modifies this`done, api
      ensures done
      ensures api.store == if old(done) then old(api.store)
                           else ErrorReport(old(api.store), View(), dnslb, activeupd, err)
    {
      if !done {
        done := true;
        var msg := "";
        if message != "" {
          msg := message + ": " + err;
        } else {
          msg := err;
        }
        UpdateLoadBalancerStatus(activeupd, STATE_ERROR, msg);
      }
    }

    /** The five callbacks of the feedback interface; all but `Failed` first flush the pending message. */
    method Deliver(cb: Callback)
      requires Valid()
      modifies this`done, this`message, api
      ensures Valid() && done
      ensures message == if cb.Failed? then old(message) else ""
      ensures api.store == if old(done) then old(api.store) else Report(old(api.store), old(View()), dnslb, copies, cb)
    {
      match cb
      case Ready(msg) =>
        message := "";
        UpdateStatus("", msg);
      case Pending(msg) =>
        message := "";
        UpdateStatus(STATE_PENDING, msg);
      case Invalid(msg) =>
        message := "";
        UpdateStatus(STATE_INVALID, msg);
      case Failed(err) =>
        Error(false, err);
      case Succeeded =>
        message := "";
        UpdateStatus("", "");
    }

    /** Whatever callbacks follow, only the first completing one has an effect. */
    method DeliverAll(cbs: seq<Callback>)
      requires Valid()
      modifies this`done, this`message, api
      ensures Valid()
      ensures done == (old(done) || cbs != [])
      ensures api.store == if old(done) || cbs == [] then old(api.store)
                           else Report(old(api.store), old(View()), dnslb, copies, cbs[0])
    {
      for i := 0 to |cbs|
        invariant Valid()
        invariant done == (old(done) || i > 0)
        invariant i == 0 ==> View() == old(View())
        invariant api.store == if old(done) || i == 0 then old(api.store)
                               else Report(old(api.store), old(View()), dnslb, copies, cbs[0])
      {
        Deliver(cbs[i]);
      }
    }
  }

  function WithHealthy(c: Collected, t: Target): Collected {
    var c := c.(hcount := c.hcount + 1);
    if t.dnsep.Some? then c.(healthy := c.healthy[t.dnsep.value.name := t.dnsep.value]) else c
  }

  function WithActive(c: Collected, t: Target): Collected {
    var c := c.(hcount := c.hcount + 1);
    if t.dnsep.Some? then c.(active := c.active[t.dnsep.value.name := t.dnsep.value]) else c
  }

  function WithUnhealthy(c: Collected, t: Target): Collected {
    if t.dnsep.Some? then c.(unhealthy := c.unhealthy[t.dnsep.value.name := t.dnsep.value]) else c
  }
}
