/** The index of the DNS controller at work: objects change in the store, their keys are queued, the
    queue is worked off, and load balancers vanish. */
module Index {
  import opened SubObjectCache

  datatype State = State(store: map<ObjectName, Ep>, queue: set<ObjectName>, view: View)

  datatype Step =
    | Put(ep: Ep)                    // an endpoint is created or changed
    | Drop(key: ObjectName)          // an endpoint is deleted
    | Process(key: ObjectName)       // the reconciler takes the key off the queue
    | LbDeleted(owner: ObjectName)   // a load balancer vanishes

  function Members(v: View, owner: ObjectName): set<ObjectName> {
    set k | k in v && owner in v[k].homes
  }

  function Apply(s: State, step: Step): State {
    match step
    case Put(ep) => s.(store := s.store[ep.key := ep], queue := s.queue + {ep.key})
    case Drop(key) => s.(store := s.store - {key}, queue := s.queue + {key})
    case Process(key) =>
      s.(queue := s.queue - {key},
         view := if key in s.store then Renewed(s.view, s.store[key]) else SubDeleted(s.view, key))
    case LbDeleted(owner) =>
      s.(queue := s.queue + Members(s.view, owner), view := OwnerDeleted(s.view, owner))
  }

  /** states[i] is the state before steps[i]. */
  ghost predicate IsRun(states: seq<State>, steps: seq<Step>) {
    |states| == |steps| + 1 && forall i :: 0 <= i < |steps| ==> states[i + 1] == Apply(states[i], steps[i])
  }

  ghost predicate Keyed(s: State) {
    forall k :: k in s.store ==> s.store[k].key == k
  }

  /** The controller has just listed everything. */
  ghost predicate Start(s: State) {
    Keyed(s) && s.queue == {} && s.view == FiledStore(s.store)
  }

  function OwnersIn(store: map<ObjectName, Ep>, key: ObjectName): set<ObjectName> {
    if key in store then Owners(store[key]) else {}
  }

  /** Every key that is not queued is in exactly the buckets the store asks for. */
  ghost predicate Agrees(s: State) {
    forall k :: k in s.queue || HomesOf(s.view, k) == OwnersIn(s.store, k)
  }

  /** Processing the key would show the index a filed endpoint that names another load balancer now. */
  predicate Repoints(s: State, step: Step) {
    step.Process? && step.key in s.view && step.key in s.store
    && Owners(s.store[step.key]) != Owners(s.view[step.key].sub)
  }

  /** Each filed object is in exactly the buckets of the owners it names. */
  ghost predicate Synced(v: View) {
    forall k :: k in v ==> v[k].homes != {} && v[k].homes == Owners(v[k].sub) && v[k].sub.key == k
  }

  lemma OwnersSingle(o: Ep, owner: ObjectName)
    requires owner in Owners(o)
    ensures Owners(o) == {owner}
  {
  }

  lemma ProcessKeepsAgreement(s: State, key: ObjectName)
    requires Keyed(s) && Synced(s.view) && Agrees(s) && !Repoints(s, Process(key))
    ensures Synced(Apply(s, Process(key)).view) && Agrees(Apply(s, Process(key)))
  {
    var t := Apply(s, Process(key));
    if key in s.store {
      assert key in s.view ==> RenewedHomes(s.view[key], s.store[key]) == Owners(s.store[key]);
    } else if key in s.view {
      assert s.view[key].homes - Owners(s.view[key].sub) == {};
    }
    assert HomesOf(t.view, key) == OwnersIn(s.store, key);
    assert forall k :: k != key ==> HomesOf(t.view, k) == HomesOf(s.view, k);
  }

  lemma LbDeletedKeepsAgreement(s: State, owner: ObjectName)
    requires Synced(s.view) && Agrees(s)
    ensures Synced(Apply(s, LbDeleted(owner)).view) && Agrees(Apply(s, LbDeleted(owner)))
  {
    var t := Apply(s, LbDeleted(owner));
    forall k | k in s.view && owner in s.view[k].homes ensures s.view[k].homes == {owner} {
      OwnersSingle(s.view[k].sub, owner);
    }
    assert forall k :: k in s.view && owner !in s.view[k].homes ==> s.view[k].homes - {owner} == s.view[k].homes;
    assert forall k :: k !in Members(s.view, owner) ==> HomesOf(t.view, k) == HomesOf(s.view, k);
  }

  lemma StepKeepsAgreement(s: State, step: Step)
    requires Keyed(s) && Synced(s.view) && Agrees(s) && !Repoints(s, step)
    ensures Keyed(Apply(s, step)) && Synced(Apply(s, step).view) && Agrees(Apply(s, step))
  {
    match step
    case Put(ep) =>
    case Drop(key) =>
    case Process(key) => ProcessKeepsAgreement(s, key);
    case LbDeleted(owner) => LbDeletedKeepsAgreement(s, owner);
  }

  /** Why: renewing a filed endpoint never moves it, because the difference of the owner sets is taken
      from the new owners to the old ones; the other direction would always file it correctly. */
  lemma RenewNeverMoves(f: Filed, obj: Ep)
    requires f.homes == Owners(f.sub)
    ensures RenewedHomes(f, obj) == f.homes
    ensures var (add, del) := DiffFrom(Owners(f.sub), Owners(obj)); f.homes + add - del == Owners(obj)
  {
    assert forall o ::
      o in f.homes + (Owners(obj) - Owners(f.sub)) - (Owners(f.sub) - Owners(obj)) <==> o in Owners(obj);
  }

  lemma RepointBreaksAgreement(s: State, step: Step)
    requires Keyed(s) && Synced(s.view) && Repoints(s, step)
    ensures !Agrees(Apply(s, step))
    ensures HomesOf(Apply(s, step).view, step.key) == Owners(s.view[step.key].sub)
  {
    RenewNeverMoves(s.view[step.key], s.store[step.key]);
    assert HomesOf(Apply(s, step).view, step.key) == s.view[step.key].homes;
  }

  ghost predicate Sane(s: State) {
    Keyed(s) && Synced(s.view) && Agrees(s)
  }

  lemma StartSane(s: State)
    requires Start(s)
    ensures Sane(s)
  {
  }

  lemma {:induction false} SaneUntilRepoint(states: seq<State>, steps: seq<Step>, n: nat)
    requires IsRun(states, steps) && Start(states[0]) && n <= |steps|
    requires forall i :: 0 <= i < n ==> !Repoints(states[i], steps[i])
    ensures Sane(states[n])
  {
    if n == 0 {
      StartSane(states[0]);
    } else {
      SaneUntilRepoint(states, steps, n - 1);
      StepKeepsAgreement(states[n - 1], steps[n - 1]);
    }
  }

  lemma {:induction false} FirstRepoint(states: seq<State>, steps: seq<Step>, n: nat) returns (i: nat)
    requires IsRun(states, steps) && n <= |steps|
    requires exists j :: 0 <= j < n && Repoints(states[j], steps[j])
    ensures i < n && Repoints(states[i], steps[i])
    ensures forall j :: 0 <= j < i ==> !Repoints(states[j], steps[j])
  {
    if exists j :: 0 <= j < n - 1 && Repoints(states[j], steps[j]) {
      i := FirstRepoint(states, steps, n - 1);
    } else {
      i := n - 1;
    }
  }

  /** Through any history the index agrees with the store, up to the keys still queued, if and only
      if the reconciler never meets a filed endpoint that has been pointed to another load balancer. */
  lemma IndexAgreesIff(states: seq<State>, steps: seq<Step>)
    requires IsRun(states, steps) && Start(states[0])
    ensures (forall i :: 0 <= i < |states| ==> Agrees(states[i]))
            <==> (forall i :: 0 <= i < |steps| ==> !Repoints(states[i], steps[i]))
  {
    if i :| 0 <= i < |steps| && Repoints(states[i], steps[i]) {
      var first := FirstRepoint(states, steps, |steps|);
      SaneUntilRepoint(states, steps, first);
      RepointBreaksAgreement(states[first], steps[first]);
      assert states[first + 1] == Apply(states[first], steps[first]);
    } else {
      forall i | 0 <= i < |states| ensures Agrees(states[i]) {
        SaneUntilRepoint(states, steps, i);
      }
    }
  }

  /** With the queue worked off, each bucket is the plain filter of the store. */
  lemma DrainedBuckets(s: State, owner: ObjectName)
    requires Keyed(s) && Agrees(s) && s.queue == {}
    ensures forall k :: k in Members(s.view, owner) <==>
              && k in s.store && s.store[k].loadBalancer == owner.name && owner.name != ""
              && k.namespace == owner.namespace
  {
    forall k ensures k in Members(s.view, owner) <==> k in s.store && owner in Owners(s.store[k]) {
      assert HomesOf(s.view, k) == OwnersIn(s.store, k);
    }
  }

  /** A concrete history that breaks the agreement: an endpoint moves from one load balancer to another,
      the index keeps it with the old one, and even its deletion does not clear it. */
  lemma RepointedEndpointStays()
    ensures exists states: seq<State>, steps: seq<Step>, k: ObjectName, lb: ObjectName ::
              IsRun(states, steps) && Start(states[0])
              && var last := states[|steps|]; last.queue == {} && last.store == map[] && k in Members(last.view, lb)
  {
    var k, lb := ObjectName("ns", "ep"), ObjectName("ns", "one");
    var one, two := Ep(k, "one"), Ep(k, "second");
    assert |"one"| != |"second"|;
    var s0 := State(map[k := one], {}, map[k := Filed(one, {lb})]);
    assert FiledStore(s0.store) == s0.view;
    var s1 := State(map[k := two], {k}, s0.view);
    assert RenewedHomes(s0.view[k], two) == {lb};
    var s2 := State(map[k := two], {}, map[k := Filed(two, {lb})]);
    var s3 := State(map[], {k}, s2.view);
    assert {lb} - Owners(two) == {lb};
    var s4 := State(map[], {}, s2.view);
    var states, steps := [s0, s1, s2, s3, s4], [Put(two), Process(k), Drop(k), Process(k)];
    assert s1 == Apply(s0, steps[0]) && s2 == Apply(s1, steps[1]);
    assert s3 == Apply(s2, steps[2]) && s4 == Apply(s3, steps[3]);
    assert IsRun(states, steps) && Start(states[0]);
    assert k in Members(states[|steps|].view, lb);
  }

  // ---- a load balancer vanishes ----

  /** Its bucket is empty at once, no other bucket changes, and its former members are queued. */
  lemma LbDeletedRule(s: State, owner: ObjectName)
    ensures var t := Apply(s, LbDeleted(owner));
            && t.store == s.store
            && (forall k :: k in t.view ==> owner !in t.view[k].homes)
            && (forall k, o :: o != owner ==> (o in HomesOf(t.view, k) <==> o in HomesOf(s.view, k)))
            && (forall k :: k in t.queue <==> k in s.queue || owner in HomesOf(s.view, k))
  {
  }

  /** Each former member stays queued until the reconciler has come by, whatever else happens. */
  lemma {:induction false} MembersAreRevisited(states: seq<State>, steps: seq<Step>, i: nat, j: nat,
                                               owner: ObjectName, k: ObjectName)
    requires IsRun(states, steps) && i < j <= |steps|
    requires steps[i] == LbDeleted(owner) && owner in HomesOf(states[i].view, k)
    ensures k in states[j].queue || exists m :: i < m < j && steps[m] == Process(k)
  {
    if j == i + 1 {
      LbDeletedRule(states[i], owner);
      assert states[j] == Apply(states[i], steps[i]);
    } else {
      MembersAreRevisited(states, steps, i, j - 1, owner, k);
      assert states[j] == Apply(states[j - 1], steps[j - 1]);
      if k in states[j - 1].queue && k !in states[j].queue {
        assert steps[j - 1] == Process(k);
      }
    }
  }

  /** A pass settles one key: it is no longer queued, an endpoint that is gone leaves the buckets of the owners it
      last named, and one that was not filed is filed under the load balancer it names. */
  lemma ProcessRule(s: State, key: ObjectName)
    requires Keyed(s) && Synced(s.view)
    ensures var t := Apply(s, Process(key));
            && t.store == s.store && t.queue == s.queue - {key}
            && (forall k :: k != key ==> (k in t.view <==> k in s.view) && (k in t.view ==> t.view[k] == s.view[k]))
            && (key !in s.store ==> key !in t.view)
            && (key in s.store && key !in s.view ==>
                  HomesOf(t.view, key) == if s.store[key].loadBalancer == "" then {}
                                          else {ObjectName(key.namespace, s.store[key].loadBalancer)})
            && (key in s.store && key in s.view ==> HomesOf(t.view, key) == HomesOf(s.view, key))
            && (key in s.store && key in t.view ==> t.view[key].sub == s.store[key])
  {
    if key in s.view {
      assert s.view[key].homes - Owners(s.view[key].sub) == {};
      if key in s.store {
        RenewNeverMoves(s.view[key], s.store[key]);
      }
    }
  }

  // ---- what survives repointing ----

  /** Each key is filed only under load balancers of its own namespace. */
  ghost predicate Local(v: View) {
    forall k :: k in v ==> v[k].sub.key == k && forall o :: o in v[k].homes ==> o.namespace == k.namespace
  }

  lemma ProcessKeepsLocal(s: State, key: ObjectName)
    requires Keyed(s) && Local(s.view)
    ensures Local(Apply(s, Process(key)).view)
  {
    var t := Apply(s, Process(key)).view;
    assert forall k :: k in t && k != key ==> k in s.view && t[k] == s.view[k];
  }

  lemma LbDeletedKeepsLocal(s: State, owner: ObjectName)
    requires Local(s.view)
    ensures Local(Apply(s, LbDeleted(owner)).view)
  {
  }

  lemma StepKeepsLocal(s: State, step: Step)
    requires Keyed(s) && Local(s.view)
    ensures Keyed(Apply(s, step)) && Local(Apply(s, step).view)
  {
    match step
    case Put(ep) =>
    case Drop(key) =>
    case Process(key) => ProcessKeepsLocal(s, key);
    case LbDeleted(owner) => LbDeletedKeepsLocal(s, owner);
  }

  /** Through any history, endpoints that change their load balancer included. */
  lemma {:induction false} HomesStayLocal(states: seq<State>, steps: seq<Step>, n: nat)
    requires IsRun(states, steps) && Start(states[0]) && n <= |steps|
    ensures Keyed(states[n]) && Local(states[n].view)
  {
    if n > 0 {
      HomesStayLocal(states, steps, n - 1);
      StepKeepsLocal(states[n - 1], steps[n - 1]);
    }
  }

  /** The endpoints the index lists for a load balancer therefore differ in their plain names. */
  lemma ListedNamesDiffer(states: seq<State>, steps: seq<Step>, owner: ObjectName, subs: seq<Ep>)
    requires IsRun(states, steps) && Start(states[0]) && Lists(states[|steps|].view, owner, subs)
    ensures forall i, j :: 0 <= i < j < |subs| ==> subs[i].key.name != subs[j].key.name
  {
    HomesStayLocal(states, steps, |steps|);
    forall i | 0 <= i < |subs| ensures subs[i].key.namespace == owner.namespace {
      assert subs[i] in subs;
    }
  }

  // ---- the controller ----

  class Controller {
    const cache: Cache
    var queue: set<ObjectName>

    ghost predicate Valid()
      reads this, cache
    {
      cache.Valid()
    }

    ghost function Abs(store: map<ObjectName, Ep>): State
      reads this, cache
    {
      State(store, queue, cache.Index())
    }

    /** `Setup`: lists all stored endpoints into a fresh index. */
    constructor (store: map<ObjectName, Ep>)
      requires forall k :: k in store ==> store[k].key == k
      ensures Valid() && Start(Abs(store)) && fresh(cache)
    {
      cache := new Cache();
      queue := {};
      new;
      cache.Setup(store);
    }

    /** A worker takes a key: the endpoint is reconciled if it still exists, else dropped. */
    method ProcessKey(key: ObjectName, store: map<ObjectName, Ep>)
      requires Valid() && forall k :: k in store ==> store[k].key == k
      modifies this, cache
      ensures Valid() && Abs(store) == Apply(old(Abs(store)), Process(key))
      ensures queue == old(queue) - {key}
    {
      queue := queue - {key};
      if key in store {
        var _ := cache.RenewSubObject(store[key]);
      } else {
        cache.DeleteSubObject(key);
      }
    }

    /** A load balancer vanishes: its endpoints are queued again and its bucket is dropped. */
    method LoadBalancerDeleted(owner: ObjectName, store: map<ObjectName, Ep>)
      requires Valid()
      modifies this, cache
      ensures Valid() && Abs(store) == Apply(old(Abs(store)), LbDeleted(owner))
      ensures queue == old(queue) + set k | k in old(cache.Index()) && owner in old(cache.Index())[k].homes
      ensures forall k :: k in cache.Index() ==> owner !in cache.Index()[k].homes
      ensures forall k, o :: o != owner ==> (o in HomesOf(cache.Index(), k) <==> o in HomesOf(old(cache.Index()), k))
    {
      var subs := cache.GetByKey(owner);
      cache.IndexSound();
      ghost var v := cache.Index();
      for i := 0 to |subs|
        invariant Valid() && cache.Index() == v
        invariant queue == old(queue) + set j | 0 <= j < i :: subs[j].key
      {
        queue := queue + {subs[i].key};
      }
      forall k ensures k in Members(v, owner) <==> exists j :: 0 <= j < |subs| && subs[j].key == k {
        if k in Members(v, owner) {
          assert v[k].sub in subs;
        }
        if j :| 0 <= j < |subs| && subs[j].key == k {
          assert subs[j] in subs;
        }
      }
      assert (set j | 0 <= j < |subs| :: subs[j].key) == Members(v, owner);
      cache.DeleteOwner(owner);
      LbDeletedRule(old(Abs(store)), owner);
    }
  }
}
