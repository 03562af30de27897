/** The source reconciler as imperative code over the objects it owns. Every API call it makes is a step
    of the ownership machine, so whatever holds in all reachable states of that machine holds between
    any two of its calls. */
module SourceReconciler {
  import opened Api
  import Lease
  import opened Sources
  import opened SubObjectCache
  import opened Reference
  import Ownership

  datatype LoadBalancer = LoadBalancer(namespace: string, name: string, dnsName: string, interval: Option<int>)

  datatype Lookup = Found(lb: LoadBalancer) | NotFound | Unavailable

  /** A service or ingress; `offer` is absent for an object of a kind that is no registered source. */
  datatype SourceObject = SourceObject(
    key: string,
    namespace: string,
    annotations: map<string, string>,
    offer: Option<Source>,
    state: Ownership.SourceState)

  datatype EndpointData = EndpointData(
    namespace: string,
    labels: map<string, string>,
    owners: set<string>,
    ipAddress: string,
    cname: string,
    loadBalancer: string,
    validUntil: Option<int>,
    version: nat)

  datatype UpdateAnswer = Written | Conflict | Broken

  /** How the API server will answer the calls of one pass. */
  datatype Answers =
    Answers(setFinalizer: bool, create: bool, update: UpdateAnswer, delete: nat -> bool, removeFinalizer: bool)

  datatype Status = Succeeded | Delayed | Repeated | Failed

  // ---- the desired endpoint ----

  function LabelOf(labels: map<string, string>, name: string): string {
    if name in labels then labels[name] else ""
  }

  /** An empty value means no label. */
  function AssureLabel(labels: map<string, string>, name: string, value: string): map<string, string> {
    if LabelOf(labels, name) == value then labels
    else if value == "" then labels - {name}
    else labels[name := value]
  }

  function AssureLabels(labels: map<string, string>, wanted: map<string, string>): map<string, string> {
    AssureLabel(AssureLabel(AssureLabel(labels, "controller", LabelOf(wanted, "controller")),
                            "source", LabelOf(wanted, "source")),
                "cluster", LabelOf(wanted, "cluster"))
  }

  /** A new endpoint carries no labels: those that are computed for it are not handed over. */
  function NewEndpoint(lb: LoadBalancer, src: SourceObject, offer: Source, now: int): EndpointData {
    var a := Offered(offer, lb.dnsName);
    EndpointData(lb.namespace, map[], {src.key}, a.ip, a.cname, lb.name,
                 Lease.UpdateDeadline(lb.interval, None, now), 0)
  }

  /** What an update makes of an existing endpoint: the labels follow those of a new one, and the
      namespace is never touched. */
  function UpdatedEndpoint(e: EndpointData, lb: LoadBalancer, src: SourceObject, offer: Source, now: int)
    : EndpointData
  {
    var a := Offered(offer, lb.dnsName);
    EndpointData(e.namespace, AssureLabels(e.labels, map[]), e.owners + {src.key}, a.ip, a.cname, lb.name,
                 Lease.UpdateDeadline(lb.interval, e.validUntil, now), e.version)
  }

  /** The API server keeps deadlines in whole seconds and gives every write a new version. */
  function Stored(e: EndpointData): EndpointData {
    e.(validUntil := Lease.Rounded(e.validUntil), version := e.version + 1)
  }

  /** Something other than the deadline differs from what an update wants. */
  predicate Touched(e: EndpointData, lb: LoadBalancer, src: SourceObject, offer: Source) {
    UpdatedEndpoint(e, lb, src, offer, 0).(validUntil := e.validUntil) != e
  }

  predicate NeedsUpdate(e: EndpointData, lb: LoadBalancer, src: SourceObject, offer: Source, now: int) {
    Touched(e, lb, src, offer) || Lease.DeadlineChanged(lb.interval, e.validUntil, now)
  }

  method AssureTracked(labels: map<string, string>, name: string, value: string, before: bool)
    returns (after: map<string, string>, modified: bool)
    ensures after == AssureLabel(labels, name, value)
    ensures modified <==> before || LabelOf(labels, name) != value
  {
    after, modified := labels, before;
    if LabelOf(labels, name) != value {
      if value == "" {
        after := after - {name};
      } else {
        after := after[name := value];
      }
      modified := true;
    }
  }

  lemma AssureOne(labels: map<string, string>, name: string, value: string)
    ensures LabelOf(AssureLabel(labels, name, value), name) == value
    ensures forall other :: other != name ==> SameLabel(AssureLabel(labels, name, value), labels, other)
  {
  }

  predicate SameLabel(a: map<string, string>, b: map<string, string>, name: string) {
    (name in a <==> name in b) && (name in a && name in b ==> a[name] == b[name])
  }

  /** The three labels end up as wanted, all others stay, and nothing changes exactly if they were so before. */
  lemma LabelsSettle(labels: map<string, string>, wanted: map<string, string>)
    ensures var l1 := AssureLabel(labels, "controller", LabelOf(wanted, "controller"));
            var l2 := AssureLabel(l1, "source", LabelOf(wanted, "source"));
            var l3 := AssureLabels(labels, wanted);
            && (forall name :: name in {"controller", "source", "cluster"} ==>
                  LabelOf(l3, name) == LabelOf(wanted, name))
            && (forall name :: name !in {"controller", "source", "cluster"} ==> SameLabel(l3, labels, name))
            && LabelOf(l1, "source") == LabelOf(labels, "source")
            && LabelOf(l2, "cluster") == LabelOf(labels, "cluster")
            && (l3 == labels <==>
                forall name :: name in {"controller", "source", "cluster"} ==>
                  LabelOf(labels, name) == LabelOf(wanted, name))
  {
    assert |"controller"| == 10 && |"source"| == 6 && |"cluster"| == 7;
    var l1 := AssureLabel(labels, "controller", LabelOf(wanted, "controller"));
    var l2 := AssureLabel(l1, "source", LabelOf(wanted, "source"));
    AssureOne(labels, "controller", LabelOf(wanted, "controller"));
    AssureOne(l1, "source", LabelOf(wanted, "source"));
    AssureOne(l2, "cluster", LabelOf(wanted, "cluster"));
  }

  /** The endpoint a successful reconcile leaves behind. */
  function Desired(prev: Option<EndpointData>, lb: LoadBalancer, src: SourceObject, offer: Source, now: int)
    : EndpointData
  {
    if prev.None? then Stored(NewEndpoint(lb, src, offer, now))
    else if NeedsUpdate(prev.value, lb, src, offer, now) then Stored(UpdatedEndpoint(prev.value, lb, src, offer, now))
    else prev.value
  }

  /** It offers exactly the source's address under the name of the load balancer, keeps the owners and the other
      labels it had, and is a new version if it changed; the index files it under the referenced load balancer
      exactly if it was not already placed in another namespace. */
  lemma DesiredState(prev: Option<EndpointData>, lb: LoadBalancer, src: SourceObject, offer: Source, now: int)
    ensures var e := Desired(prev, lb, src, offer, now);
            var labels := if prev.None? then map[] else prev.value.labels;
            && Address(e.ipAddress, e.cname) == Offered(offer, lb.dnsName)
            && e.loadBalancer == lb.name
            && e.owners == (if prev.None? then {src.key} else prev.value.owners + {src.key})
            && (forall name :: name !in {"controller", "source", "cluster"} ==>
                  SameLabel(e.labels, labels, name))
            && (if prev.None? then e.version == 1 else e == prev.value || e.version == prev.value.version + 1)
            && e.namespace == (if prev.None? then lb.namespace else prev.value.namespace)
            && LabelOf(e.labels, "controller") == LabelOf(e.labels, "source") == LabelOf(e.labels, "cluster") == ""
            && (prev.None? || (prev.value.validUntil.Some? ==> prev.value.validUntil.value % SECOND == 0) ==>
                  e.validUntil ==
                  Lease.RenewedDeadline(lb.interval, if prev.None? then None else prev.value.validUntil, now))
            && (lb.name != "" ==>
                  (Owners(Ep(ObjectName(e.namespace, "ep"), e.loadBalancer)) == {ObjectName(lb.namespace, lb.name)}
                   <==> prev.None? || prev.value.namespace == lb.namespace))
  {
    assert |"controller"| == 10 && |"source"| == 6 && |"cluster"| == 7;
    if prev.Some? {
      LabelsSettle(prev.value.labels, map[]);
    }
  }

  /** Repeating a successful reconcile with unchanged inputs modifies the endpoint exactly if an interval
      is set and at most 120 s of it remain. */
  lemma RepeatModifiesIff(prev: Option<EndpointData>, lb: LoadBalancer, src: SourceObject, offer: Source,
                          before: int, now: int)
    ensures var e := Desired(prev, lb, src, offer, before);
            NeedsUpdate(e, lb, src, offer, now) <==>
            Lease.Limited(lb.interval) && (e.validUntil.Some? ==> e.validUntil.value - now <= Lease.RENEW_BELOW)
  {
    var e := Desired(prev, lb, src, offer, before);
    assert |"controller"| == 10 && |"source"| == 6 && |"cluster"| == 7;
    LabelsSettle(e.labels, map[]);
    if prev.Some? {
      LabelsSettle(prev.value.labels, map[]);
    }
    assert e.owners + {src.key} == e.owners;
    assert UpdatedEndpoint(e, lb, src, offer, now).(validUntil := e.validUntil) == e;
  }

  /** An update that failed leaves its changes in the cached endpoint. With unchanged inputs the next pass finds
      them up to date, and the update is lost, unless an interval is set and at most 120 s remain of the deadline
      that was never written. */
  lemma LostUpdateIff(e: EndpointData, lb: LoadBalancer, src: SourceObject, offer: Source, before: int, now: int)
    ensures var unwritten := UpdatedEndpoint(e, lb, src, offer, before);
            NeedsUpdate(unwritten, lb, src, offer, now) <==>
            Lease.Limited(lb.interval) && unwritten.validUntil.value - now <= Lease.RENEW_BELOW
  {
    var unwritten := UpdatedEndpoint(e, lb, src, offer, before);
    assert |"controller"| == 10 && |"source"| == 6 && |"cluster"| == 7;
    LabelsSettle(e.labels, map[]);
    LabelsSettle(unwritten.labels, map[]);
    assert unwritten.owners + {src.key} == unwritten.owners;
    assert UpdatedEndpoint(unwritten, lb, src, offer, 0).(validUntil := unwritten.validUntil) == unwritten;
  }

  // ---- the reconciler ----

  /** The single endpoint of a source as `Lease` sees it. */
  ghost function CopyOf(endpoints: map<nat, EndpointData>): Lease.Copy {
    if endpoints == map[] then Lease.Absent
    else
      var k :| k in endpoints;
      Lease.Present(endpoints[k].validUntil)
  }

  lemma CopyOfOne(endpoints: map<nat, EndpointData>, k: nat)
    requires endpoints.Keys == {k}
    ensures CopyOf(endpoints) == Lease.Present(endpoints[k].validUntil)
  {
  }

  /** The reference to act on, and whether the object is to be handled as a source. */
  function Resolve(obj: SourceObject): (Option<ObjectName>, bool) {
    if obj.offer.None? then (None, false)
    else
      var ref := if ANNOTATION in obj.annotations then Parse(obj.namespace, obj.annotations[ANNOTATION]) else None;
      if ref.None? then (None, ANNOTATION in obj.annotations && obj.state.finalizer) else (ref, true)
  }

  /** A bare name means a load balancer in the object's own namespace; "namespace/name" means that one; without
      the annotation, or with more slashes, there is no reference, and the object is still handled as a source if
      it is annotated and carries the finalizer. */
  lemma ResolveRule(obj: SourceObject)
    ensures obj.offer.None? || ANNOTATION !in obj.annotations ==> Resolve(obj) == (None, false)
    ensures obj.offer.Some? && ANNOTATION in obj.annotations ==>
              var v := obj.annotations[ANNOTATION];
              && (Slashes(v) == 0 ==> Resolve(obj) == (Some(ObjectName(obj.namespace, v)), true))
              && (forall ns, name :: Slashes(ns) == Slashes(name) == 0 && v == ns + "/" + name ==>
                    Resolve(obj) == (Some(ObjectName(ns, name)), true))
              && (Slashes(v) >= 2 ==> Resolve(obj) == (None, obj.state.finalizer))
              && (Slashes(v) < 2 ==> Resolve(obj).0.Some? && Resolve(obj).1)
  {
    if obj.offer.Some? && ANNOTATION in obj.annotations {
      var v := obj.annotations[ANNOTATION];
      ParseRule(obj.namespace, v);
      forall ns, name | Slashes(ns) == Slashes(name) == 0 && v == ns + "/" + name
        ensures Parse(obj.namespace, v) == Some(ObjectName(ns, name))
      {
        RoundTripIff(obj.namespace, ObjectName(ns, name));
      }
    }
  }

  /** What looking up the referenced load balancer yields. */
  function Referred(obj: SourceObject, lookup: ObjectName -> Lookup): Lookup {
    if Resolve(obj).0.Some? then lookup(Resolve(obj).0.value) else NotFound
  }

  ghost predicate ReadyFor(obj: SourceObject, lookup: ObjectName -> Lookup) {
    var found := Referred(obj, lookup);
    found.Found? && obj.offer.Some? && Acceptable(obj.offer.value, found.lb.dnsName)
  }

  /** The status of a pass that does not accept the source. */
  ghost function Refusal(found: Lookup, offer: Source): Status {
    if found.Unavailable? then Delayed
    else if found.Found? && offer.ServiceSource? && offer.kind == LOAD_BALANCER
            && forall l :: l in offer.status ==> !Usable(l) then Delayed
    else Failed
  }

  /** The API server deletes every endpoint that is left. */
  ghost predicate Deletable(endpoints: map<nat, EndpointData>, accepted: nat -> bool) {
    forall k :: k in endpoints ==> accepted(k)
  }

  /** No API call fails. */
  ghost predicate Granted(a: Answers) {
    a.setFinalizer && a.create && a.update == Written && a.removeFinalizer && forall k :: a.delete(k)
  }

  /** The lookup finds an endpoint that this pass would change. */
  ghost predicate AnyUpdate(cache: map<nat, EndpointData>, lb: LoadBalancer, obj: SourceObject, now: int)
    requires obj.offer.Some?
  {
    exists k :: k in cache && NeedsUpdate(cache[k], lb, obj, obj.offer.value, now)
  }

  /** The cache after an update that could not be written. */
  function Unwritten(cache: map<nat, EndpointData>, lb: LoadBalancer, obj: SourceObject, now: int)
    : map<nat, EndpointData>
    requires obj.offer.Some?
  {
    map k | k in cache :: UpdatedEndpoint(cache[k], lb, obj, obj.offer.value, now)
  }

  function DesiredAfter(cache: map<nat, EndpointData>, k: nat, lb: LoadBalancer, obj: SourceObject, now: int)
    : EndpointData
    requires obj.offer.Some?
  {
    Desired(if k in cache then Some(cache[k]) else None, lb, obj, obj.offer.value, now)
  }

  lemma LostUpdateDiffers(e: EndpointData, lb: LoadBalancer, src: SourceObject, offer: Source, before: int, now: int)
    requires before <= now && NeedsUpdate(e, lb, src, offer, before)
    requires !NeedsUpdate(UpdatedEndpoint(e, lb, src, offer, before), lb, src, offer, now)
    ensures UpdatedEndpoint(e, lb, src, offer, before) != e
  {
  }

  lemma LostUpdateSeenIff(k: nat, e: EndpointData, lb: LoadBalancer, obj: SourceObject, again: SourceObject,
                          before: int, now: int)
    requires obj.offer.Some? && again.key == obj.key && again.offer == obj.offer
    ensures var unwritten := UpdatedEndpoint(e, lb, obj, obj.offer.value, before);
            AnyUpdate(map[k := unwritten], lb, again, now) <==>
            Lease.Limited(lb.interval) && unwritten.validUntil.value - now <= Lease.RENEW_BELOW
  {
    var unwritten := UpdatedEndpoint(e, lb, obj, obj.offer.value, before);
    LostUpdateIff(e, lb, obj, obj.offer.value, before, now);
    assert UpdatedEndpoint(unwritten, lb, again, obj.offer.value, now)
           == UpdatedEndpoint(unwritten, lb, obj, obj.offer.value, now);
    assert k in map[k := unwritten];
  }

  lemma UpdateChangesNothing(e: EndpointData, lb: LoadBalancer, src: SourceObject, offer: Source, now: int)
    requires !NeedsUpdate(e, lb, src, offer, now)
    ensures UpdatedEndpoint(e, lb, src, offer, now) == e
  {
  }

  /** The deadlines of store and cache move as a pass of `Lease` says. */
  ghost predicate LeaseStep(
    endpoints: map<nat, EndpointData>, cache: map<nat, EndpointData>,
    endpoints': map<nat, EndpointData>, cache': map<nat, EndpointData>,
    lb: LoadBalancer, obj: SourceObject, now: int, succeeded: bool)
    requires obj.offer.Some?
  {
    var touched := exists k :: k in cache && Touched(cache[k], lb, obj, obj.offer.value);
    Lease.Tracked(CopyOf(endpoints'), CopyOf(cache'), if succeeded then Some(now) else None, Lease.Absent, None)
    == Lease.AfterPass(Lease.Tracked(CopyOf(endpoints), CopyOf(cache), None, Lease.Absent, None),
                       lb.interval, touched, succeeded, now)
  }

  /** An update of the slave would be written: it exists, the copy has its version, and the call succeeds. */
  ghost predicate Writable(endpoints: map<nat, EndpointData>, cache: map<nat, EndpointData>, answer: UpdateAnswer) {
    forall k :: k in cache ==> k in endpoints && endpoints[k].version == cache[k].version && answer == Written
  }

  /** An update of the slave runs into a conflict: it exists, and either the copy is outdated or the server says so. */
  ghost predicate Conflicts(endpoints: map<nat, EndpointData>, cache: map<nat, EndpointData>, answer: UpdateAnswer) {
    exists k :: k in cache && k in endpoints && (endpoints[k].version != cache[k].version || answer == Conflict)
  }

  /** What maintaining the slave of a source with finalizer comes to. Success leaves exactly the desired endpoint
      in the cache; the store agrees with it exactly if it did before or there was something to write. A failure
      leaves the store alone, and in the cache the endpoint that could not be written. */
  ghost predicate SlaveMaintained(
    endpoints: map<nat, EndpointData>, cache: map<nat, EndpointData>,
    endpoints': map<nat, EndpointData>, cache': map<nat, EndpointData>,
    lb: LoadBalancer, obj: SourceObject, now: int, answers: Answers, status: Status)
    requires obj.offer.Some?
  {
    var update, succeeded := AnyUpdate(cache, lb, obj, now), status == Succeeded;
    && (succeeded <==>
          if cache == map[] then answers.create else !update || Writable(endpoints, cache, answers.update))
    && (!succeeded ==>
          status == if Conflicts(endpoints, cache, answers.update) then Repeated else Delayed)
    && (cache != map[] ==> cache'.Keys == cache.Keys)
    && (succeeded ==>
          && |cache'| == 1 && (forall k :: k in cache' ==> cache'[k] == DesiredAfter(cache, k, lb, obj, now))
          && (endpoints' == cache' <==> endpoints == cache || update)
          && (cache != map[] && !update ==> endpoints' == endpoints && cache' == cache))
    && (!succeeded ==> endpoints' == endpoints && cache' == Unwritten(cache, lb, obj, now))
    && LeaseStep(endpoints, cache, endpoints', cache', lb, obj, now, succeeded)
  }

  lemma UpdateKept(k: nat, endpoints: map<nat, EndpointData>, cache: map<nat, EndpointData>,
                   lb: LoadBalancer, obj: SourceObject, now: int, answers: Answers)
    requires obj.offer.Some? && cache.Keys == {k} && !NeedsUpdate(cache[k], lb, obj, obj.offer.value, now)
    ensures SlaveMaintained(endpoints, cache, endpoints, cache, lb, obj, now, answers, Succeeded)
    ensures Unwritten(cache, lb, obj, now) == cache
  {
    UpdateChangesNothing(cache[k], lb, obj, obj.offer.value, now);
    CopyOfOne(cache, k);
    assert |cache| == |cache.Keys|;
  }

  lemma LeaseStepWritten(k: nat, endpoints: map<nat, EndpointData>, cache: map<nat, EndpointData>,
                         lb: LoadBalancer, obj: SourceObject, now: int)
    requires obj.offer.Some? && cache.Keys == endpoints.Keys == {k}
    requires NeedsUpdate(cache[k], lb, obj, obj.offer.value, now)
    ensures var written := map[k := Stored(UpdatedEndpoint(cache[k], lb, obj, obj.offer.value, now))];
            LeaseStep(endpoints, cache, written, written, lb, obj, now, true)
  {
    var written := map[k := Stored(UpdatedEndpoint(cache[k], lb, obj, obj.offer.value, now))];
    assert k in cache;
    CopyOfOne(endpoints, k);
    CopyOfOne(cache, k);
    CopyOfOne(written, k);
  }

  lemma UpdateWritten(k: nat, endpoints: map<nat, EndpointData>, cache: map<nat, EndpointData>,
                      lb: LoadBalancer, obj: SourceObject, now: int, answers: Answers)
    requires obj.offer.Some? && cache.Keys == {k} && NeedsUpdate(cache[k], lb, obj, obj.offer.value, now)
    requires endpoints.Keys == {k} && Writable(endpoints, cache, answers.update)
    ensures var written := map[k := Stored(UpdatedEndpoint(cache[k], lb, obj, obj.offer.value, now))];
            SlaveMaintained(endpoints, cache, written, written, lb, obj, now, answers, Succeeded)
  {
    var written := map[k := Stored(UpdatedEndpoint(cache[k], lb, obj, obj.offer.value, now))];
    assert k in cache && AnyUpdate(cache, lb, obj, now);
    LeaseStepWritten(k, endpoints, cache, lb, obj, now);
  }

  lemma LeaseStepRefused(k: nat, endpoints: map<nat, EndpointData>, cache: map<nat, EndpointData>,
                         lb: LoadBalancer, obj: SourceObject, now: int)
    requires obj.offer.Some? && cache.Keys == {k} && endpoints.Keys <= {k}
    requires NeedsUpdate(cache[k], lb, obj, obj.offer.value, now)
    ensures LeaseStep(endpoints, cache, endpoints, Unwritten(cache, lb, obj, now), lb, obj, now, false)
  {
    assert k in cache;
    CopyOfOne(cache, k);
    CopyOfOne(Unwritten(cache, lb, obj, now), k);
  }

  lemma UpdateRefused(k: nat, endpoints: map<nat, EndpointData>, cache: map<nat, EndpointData>,
                      lb: LoadBalancer, obj: SourceObject, now: int, answers: Answers, status: Status)
    requires obj.offer.Some? && cache.Keys == {k} && NeedsUpdate(cache[k], lb, obj, obj.offer.value, now)
    requires status == if k in endpoints && (endpoints[k].version != cache[k].version || answers.update == Conflict)
                       then Repeated else Delayed
    requires endpoints.Keys <= {k} && !Writable(endpoints, cache, answers.update)
    ensures SlaveMaintained(endpoints, cache, endpoints, Unwritten(cache, lb, obj, now), lb, obj, now, answers, status)
  {
    assert k in cache && AnyUpdate(cache, lb, obj, now);
    LeaseStepRefused(k, endpoints, cache, lb, obj, now);
  }

  lemma FailedUpdate(
    k: nat, cache: map<nat, EndpointData>, endpoints': map<nat, EndpointData>, cache': map<nat, EndpointData>,
    lb: LoadBalancer, obj: SourceObject, now: int, answers: Answers, status: Status)
    requires obj.offer.Some? && cache.Keys == {k} && NeedsUpdate(cache[k], lb, obj, obj.offer.value, now)
    requires !answers.update.Written?
    requires SlaveMaintained(cache, cache, endpoints', cache', lb, obj, now, answers, status)
    ensures status != Succeeded && endpoints' == cache
    ensures cache' == map[k := UpdatedEndpoint(cache[k], lb, obj, obj.offer.value, now)]
  {
    assert k in cache;
    assert AnyUpdate(cache, lb, obj, now);
  }

  lemma MaintainedWritable(
    endpoints: map<nat, EndpointData>, cache: map<nat, EndpointData>,
    endpoints': map<nat, EndpointData>, cache': map<nat, EndpointData>,
    lb: LoadBalancer, obj: SourceObject, now: int, answers: Answers, status: Status)
    requires obj.offer.Some? && cache != map[] && (endpoints == cache ==> answers.update == Written)
    requires Writable(endpoints, cache, answers.update)
    requires SlaveMaintained(endpoints, cache, endpoints', cache', lb, obj, now, answers, status)
    ensures status == Succeeded
    ensures endpoints' == cache' <==> endpoints == cache || AnyUpdate(cache, lb, obj, now)
    ensures !AnyUpdate(cache, lb, obj, now) ==> endpoints' == endpoints && cache' == cache
  {
  }

  lemma RetriedUpdate(k: nat, e: EndpointData, lb: LoadBalancer, obj: SourceObject, again: SourceObject,
                      before: int, now: int, renewed: bool)
    requires obj.offer.Some? && again.key == obj.key && again.offer == obj.offer
    requires before <= now && NeedsUpdate(e, lb, obj, obj.offer.value, before)
    ensures var unwritten := UpdatedEndpoint(e, lb, obj, obj.offer.value, before);
            var found := if renewed then map[k := e] else map[k := unwritten];
            map[k := e] == found || AnyUpdate(found, lb, again, now) <==>
            renewed || (Lease.Limited(lb.interval) && unwritten.validUntil.value - now <= Lease.RENEW_BELOW)
  {
    var unwritten := UpdatedEndpoint(e, lb, obj, obj.offer.value, before);
    LostUpdateIff(e, lb, obj, obj.offer.value, before, now);
    LostUpdateSeenIff(k, e, lb, obj, again, before, now);
    if !NeedsUpdate(unwritten, lb, obj, obj.offer.value, now) {
      LostUpdateDiffers(e, lb, obj, obj.offer.value, before, now);
      assert map[k := e][k] != map[k := unwritten][k];
    }
  }

  /** Some endpoint could not be deleted so far. */
  ghost predicate Remains(stored: map<nat, EndpointData>, todo: set<nat>, accepted: nat -> bool) {
    exists k :: k in stored && k !in todo && !accepted(k)
  }

  /** What is stored while the keys in `todo` are still to be deleted. */
  ghost function Left(stored: map<nat, EndpointData>, todo: set<nat>, accepted: nat -> bool)
    : map<nat, EndpointData>
  {
    map k | k in stored && (k in todo || !accepted(k)) :: stored[k]
  }

  lemma LeftOneLess(stored: map<nat, EndpointData>, todo: set<nat>, accepted: nat -> bool, k: nat)
    requires k in todo
    ensures Left(stored, todo - {k}, accepted)
            == if k !in stored || accepted(k) then Left(stored, todo, accepted) - {k} else Left(stored, todo, accepted)
  {
  }

  lemma LeftBefore(stored: map<nat, EndpointData>, keys: set<nat>, accepted: nat -> bool)
    requires stored.Keys <= keys
    ensures Left(stored, keys, accepted) == stored && !Remains(stored, keys, accepted)
  {
    assert forall k :: k in stored ==> k in stored.Keys;
  }

  lemma LeftAfter(stored: map<nat, EndpointData>, accepted: nat -> bool)
    ensures Left(stored, {}, accepted) == map k | k in stored && !accepted(k) :: stored[k]
    ensures Remains(stored, {}, accepted) == !Deletable(stored, accepted)
  {
  }

  class Reconciler {
    var source: Option<SourceObject>
    var endpoints: map<nat, EndpointData>
    var cache: map<nat, EndpointData>
    var next: nat
    ghost var hadFinalizer: bool
    ghost var pc: Ownership.Pc

    ghost function Abs(): Ownership.State
      reads this
    {
      Ownership.State(if source.Some? then Some(source.value.state) else None,
                      endpoints.Keys, cache.Keys, next, hadFinalizer, pc)
    }

    /** The ownership machine can be in this state. */
    ghost predicate Valid()
      reads this
    {
      Ownership.Reaches(Ownership.ASSUMED, Abs())
    }

    constructor (source: Option<SourceObject>)
      requires source.Some? ==> !source.value.state.finalizer
      ensures Valid() && pc == Ownership.Idle && this.source == source && endpoints == cache == map[]
    {
      this.source := source;
      endpoints, cache, next := map[], map[], 0;
      hadFinalizer, pc := false, Ownership.Idle;
      new;
      Ownership.ReachesStart(Ownership.ASSUMED, Abs());
    }

    /** Nothing is owned without the finalizer, and there is one endpoint at most. */
    lemma Facts()
      requires Valid()
      ensures Ownership.Inv(Abs())
    {
      Ownership.ReachedInv(Abs());
    }

    /** `AssertSingleSlave`: by the invariant the lookup finds one endpoint at most. */
    method LoadSlave(obj: SourceObject, ghost wanted: bool) returns (slave: Option<nat>)
      requires Valid() && pc.Idle? && source == Some(obj)
      modifies this`pc
      ensures Valid() && pc == Ownership.Loaded(obj.state.finalizer, wanted, slave)
      ensures slave.Some? ==> cache.Keys == {slave.value}
      ensures slave.None? ==> cache == map[]
    {
      Facts();
      if cache.Keys == {} {
        slave := None;
      } else {
        var k :| k in cache.Keys;
        slave := Some(k);
      }
      ghost var before := Abs();
      pc := Ownership.Loaded(obj.state.finalizer, wanted, slave);
      Ownership.ReachesNext(Ownership.ASSUMED, before,
                            Ownership.Begin(obj.state.finalizer, wanted, slave), Abs());
    }

    method GiveUp()
      requires Valid() && !pc.Idle?
      modifies this`pc
      ensures Valid() && pc.Idle?
    {
      ghost var before := Abs();
      pc := Ownership.Idle;
      Ownership.ReachesNext(Ownership.ASSUMED, before, Ownership.GiveUp, Abs());
    }

    method ApiSetFinalizer(obj: SourceObject, accepted: bool) returns (ok: bool)
      requires Valid() && pc.Loaded? && pc.wanted && pc.hasFinalizer == obj.state.finalizer && source == Some(obj)
      modifies this`pc, this`source, this`hadFinalizer
      ensures Valid()
      ensures ok <==> obj.state.finalizer || accepted
      ensures source == Some(if ok then obj.(state := obj.state.(finalizer := true)) else obj)
      ensures pc == if ok then Ownership.Ready(old(pc.slave)) else Ownership.Idle
    {
      ghost var before := Abs();
      ok := obj.state.finalizer || accepted;
      if !obj.state.finalizer && accepted {
        source := Some(obj.(state := obj.state.(finalizer := true)));
        hadFinalizer := true;
      }
      pc := if ok then Ownership.Ready(pc.slave) else Ownership.Idle;
      Ownership.ReachesNext(Ownership.ASSUMED, before, Ownership.SetFinalizer(accepted), Abs());
    }

    method ApiCreate(e: EndpointData, accepted: bool)
      requires Valid() && pc == Ownership.Ready(None)
      modifies this`pc, this`endpoints, this`cache, this`next
      ensures Valid() && pc.Idle?
      ensures endpoints == if accepted then old(endpoints)[old(next) := Stored(e)] else old(endpoints)
      ensures cache == if accepted then old(cache)[old(next) := Stored(e)] else old(cache)
    {
      ghost var before := Abs();
      if accepted {
        endpoints, cache := endpoints[next := Stored(e)], cache[next := Stored(e)];
      }
      next := next + 1;
      pc := Ownership.Idle;
      Ownership.ReachesNext(Ownership.ASSUMED, before,
                            Ownership.Create(if accepted then Ownership.Done else Ownership.Rejected), Abs());
    }

    /** Changes the cached endpoint in place, field by field, and keeps track of whether any field changed.
        Nothing undoes this when the update that follows fails. */
    method UpdateEndpoint(k: nat, wanted: EndpointData, lb: LoadBalancer, src: SourceObject, offer: Source, now: int)
      returns (modified: bool)
      requires k in cache && wanted == NewEndpoint(lb, src, offer, now)
      modifies this`cache
      ensures cache == old(cache)[k := UpdatedEndpoint(old(cache)[k], lb, src, offer, now)]
      ensures modified <==> NeedsUpdate(old(cache)[k], lb, src, offer, now)
    {
      var ep := cache[k];
      modified := false;
      LabelsSettle(ep.labels, map[]);
      var labels := ep.labels;
      labels, modified := AssureTracked(labels, "controller", LabelOf(wanted.labels, "controller"), modified);
      labels, modified := AssureTracked(labels, "source", LabelOf(wanted.labels, "source"), modified);
      labels, modified := AssureTracked(labels, "cluster", LabelOf(wanted.labels, "cluster"), modified);
      ep := ep.(labels := labels);
      if src.key !in ep.owners {
        ep, modified := ep.(owners := ep.owners + {src.key}), true;
      }
      if ep.ipAddress != wanted.ipAddress {
        ep, modified := ep.(ipAddress := wanted.ipAddress), true;
      }
      if ep.cname != wanted.cname {
        ep, modified := ep.(cname := wanted.cname), true;
      }
      if ep.loadBalancer != wanted.loadBalancer {
        ep, modified := ep.(loadBalancer := wanted.loadBalancer), true;
      }
      if Lease.DeadlineChanged(lb.interval, ep.validUntil, now) {
        ep, modified := ep.(validUntil := Lease.UpdateDeadline(lb.interval, ep.validUntil, now)), true;
      }
      assert ep.labels == UpdatedEndpoint(cache[k], lb, src, offer, now).labels;
      assert ep == UpdatedEndpoint(cache[k], lb, src, offer, now);
      cache := cache[k := ep];
    }

    /** Writes the cached endpoint. The stored one must exist and still have the version of the copy; if it has
        not, or the call fails, the copy stays as it is. */
    method ApiUpdate(k: nat, answer: UpdateAnswer) returns (actual: UpdateAnswer)
      requires Valid() && pc == Ownership.Ready(Some(k)) && k in cache
      modifies this`pc, this`endpoints, this`cache
      ensures Valid() && pc.Idle?
      ensures actual == if k !in old(endpoints) then Broken
                        else if old(endpoints)[k].version != old(cache)[k].version then Conflict
                        else answer
      ensures endpoints == if actual == Written then old(endpoints)[k := Stored(old(cache)[k])] else old(endpoints)
      ensures cache == if actual == Written then old(cache)[k := Stored(old(cache)[k])] else old(cache)
    {
      ghost var before := Abs();
      actual := if k !in endpoints then Broken
                else if endpoints[k].version != cache[k].version then Conflict
                else answer;
      if actual == Written {
        endpoints, cache := endpoints[k := Stored(cache[k])], cache[k := Stored(cache[k])];
      }
      pc := Ownership.Idle;
      assert endpoints.Keys == before.endpoints && cache.Keys == before.cache;
      Ownership.ReachesNext(Ownership.ASSUMED, before, Ownership.Update, Abs());
    }

    /** A watch event of the endpoint replaces the cached copy. */
    method RenewSlave(k: nat)
      requires Valid()
      modifies this`cache
      ensures Valid()
      ensures cache == if k in endpoints then old(cache)[k := endpoints[k]] else old(cache) - {k}
    {
      ghost var before := Abs();
      cache := if k in endpoints then cache[k := endpoints[k]] else cache - {k};
      assert cache.Keys == if k in before.endpoints then before.cache + {k} else before.cache - {k};
      Ownership.ReachesNext(Ownership.ASSUMED, before, Ownership.Watch(k), Abs());
    }

    /** `deleteEndpoint` on the slave of a reconcile; an endpoint that is already gone counts as deleted. */
    method ApiDeleteSlave(slave: Option<nat>, accepted: nat -> bool) returns (ok: bool)
      requires Valid() && pc.Loaded? && pc.slave == slave
      modifies this`pc, this`endpoints
      ensures Valid()
      ensures ok <==> slave.None? || slave.value !in old(endpoints) || accepted(slave.value)
      ensures endpoints == if ok && slave.Some? then old(endpoints) - {slave.value} else old(endpoints)
      ensures pc == if ok then Ownership.Unlinked(old(pc.hasFinalizer)) else Ownership.Idle
    {
      ghost var before := Abs();
      ok := slave.None? || slave.value !in endpoints || accepted(slave.value);
      if ok && slave.Some? {
        endpoints := endpoints - {slave.value};
      }
      pc := if ok then Ownership.Unlinked(pc.hasFinalizer) else Ownership.Idle;
      assert endpoints.Keys == if ok then before.endpoints - Ownership.KeptSlaves(slave) else before.endpoints;
      Ownership.ReachesNext(Ownership.ASSUMED, before, Ownership.DeleteSlave(ok), Abs());
    }

    method ApiRemoveFinalizer(obj: SourceObject, accepted: bool) returns (ok: bool)
      requires Valid() && pc == Ownership.Unlinked(obj.state.finalizer) && source == Some(obj)
      modifies this`pc, this`source
      ensures Valid() && pc.Idle?
      ensures ok <==> !obj.state.finalizer || accepted
      ensures source == if ok && obj.state.finalizer then Released(obj) else Some(obj)
    {
      ghost var before := Abs();
      ok := !obj.state.finalizer || accepted;
      if obj.state.finalizer && accepted {
        source := Released(obj);
      }
      pc := Ownership.Idle;
      Ownership.ReachedHadFinalizer(before);
      Ownership.ReachesNext(Ownership.ASSUMED, before, Ownership.RemoveFinalizer(accepted), Abs());
    }

    method IsValid(obj: SourceObject) returns (ref: Option<ObjectName>, isSource: bool)
      ensures (ref, isSource) == Resolve(obj)
    {
      if obj.offer.None? {
        return None, false;
      }
      var n, found := LBForSource(obj.namespace, obj.annotations);
      if n.None? {
        if found && obj.state.finalizer {
          return None, true;
        }
        return None, false;
      }
      return n, true;
    }

    method Validate(lookup: Lookup, offer: Source) returns (status: Status)
      ensures status == Succeeded <==> lookup.Found? && Acceptable(offer, lookup.lb.dnsName)
      ensures status != Succeeded ==> status == Refusal(lookup, offer)
      ensures lookup.NotFound? ==> status == Failed
      ensures lookup.Unavailable? ==> status == Delayed
      ensures lookup.Found? && !Acceptable(offer, lookup.lb.dnsName) ==>
                status == if && offer.ServiceSource? && offer.kind == "LoadBalancer"
                             && forall l :: l in offer.status ==> l.ip == "" && l.hostname == ""
                          then Delayed else Failed
    {
      match lookup
      case NotFound => status := Failed;
      case Unavailable => status := Delayed;
      case Found(lb) =>
        var verdict := Sources.Validate(offer, lb.dnsName);
        status := match verdict case Accepted => Succeeded case NotYet => Delayed case Refused => Failed;
    }

    /** One pass over a source that is not being deleted. A source that refers to an accepting load balancer gets
        the finalizer and then its endpoint maintained. Any other loses its endpoint if that can be deleted; if it
        has no reference at all, the finalizer goes with it. */
    method Reconcile(obj: SourceObject, lookup: ObjectName -> Lookup, now: int, answers: Answers)
      returns (status: Status)
      requires Valid() && pc.Idle? && source == Some(obj)
      modifies this
      ensures Valid() && pc.Idle?
      ensures ReadyFor(obj, lookup) ==>
                var finalized := obj.state.finalizer || answers.setFinalizer;
                && source == Some(obj.(state := obj.state.(finalizer := finalized)))
                && (if finalized
                    then SlaveMaintained(old(endpoints), old(cache), endpoints, cache,
                                         Referred(obj, lookup).lb, obj, now, answers, status)
                    else status == Delayed && endpoints == old(endpoints) && cache == old(cache))
      ensures !ReadyFor(obj, lookup) ==>
                && cache == old(cache)
                && endpoints == (if Deletable(old(endpoints), answers.delete) then map[] else old(endpoints))
      ensures Resolve(obj).0.Some? && !ReadyFor(obj, lookup) ==>
                status == Refusal(Referred(obj, lookup), obj.offer.value) && source == old(source)
      ensures Resolve(obj).0.None? ==>
                var released := Deletable(old(endpoints), answers.delete)
                                && (!obj.state.finalizer || answers.removeFinalizer);
                && status == (if released then Succeeded else Delayed)
                && source == if released && obj.state.finalizer then Released(obj) else Some(obj)
      ensures Granted(answers) && Writable(old(endpoints), old(cache), answers.update) ==>
                (status == Succeeded <==> Resolve(obj).0.None? || ReadyFor(obj, lookup))
    {
      var ep := LoadSlave(obj, Resolve(obj).0.Some?);
      var ref, isSource := IsValid(obj);
      if ref.None? {
        status := Release(obj, ep, answers);
        return;
      }
      var found := lookup(ref.value);
      status := Validate(found, obj.offer.value);
      if status == Succeeded {
        status := Maintain(obj, ep, found.lb, now, answers);
      } else {
        Drop(ep, answers);
      }
    }

    /** A pass that cannot write its update, perhaps followed by a watch event. */
    method FailToUpdate(k: nat, obj: SourceObject, lookup: ObjectName -> Lookup, now: int, renewed: bool,
                        answers: Answers)
      requires Valid() && pc.Idle? && source == Some(obj) && ReadyFor(obj, lookup) && Granted(answers)
      requires k in cache && endpoints == cache
      requires NeedsUpdate(cache[k], Referred(obj, lookup).lb, obj, obj.offer.value, now)
      modifies this
      ensures Valid() && pc.Idle? && source == Some(obj.(state := obj.state.(finalizer := true)))
      ensures endpoints == old(endpoints) && endpoints.Keys == {k}
      ensures cache == if renewed then endpoints
                       else map[k := UpdatedEndpoint(old(cache)[k], Referred(obj, lookup).lb, obj,
                                                     obj.offer.value, now)]
    {
      Facts();
      var first := Reconcile(obj, lookup, now, answers.(update := Broken));
      FailedUpdate(k, old(cache), endpoints, cache, Referred(obj, lookup).lb, obj, now,
                   answers.(update := Broken), first);
      if renewed {
        RenewSlave(k);
        assert cache == endpoints;
      }
    }

    /** A pass that can write whatever it wants to write. */
    method PassAgain(obj: SourceObject, lookup: ObjectName -> Lookup, now: int, answers: Answers)
      returns (status: Status)
      requires Valid() && pc.Idle? && source == Some(obj) && obj.state.finalizer && ReadyFor(obj, lookup)
      requires cache != map[] && answers.update == Written && Writable(endpoints, cache, answers.update)
      modifies this
      ensures Valid() && pc.Idle? && status == Succeeded && source == old(source)
      ensures var update := AnyUpdate(old(cache), Referred(obj, lookup).lb, obj, now);
              && (endpoints == cache <==> old(endpoints) == old(cache) || update)
              && (!update ==> endpoints == old(endpoints) && cache == old(cache))
    {
      ghost var stored, found := endpoints, cache;
      status := Reconcile(obj, lookup, now, answers);
      MaintainedWritable(stored, found, endpoints, cache, Referred(obj, lookup).lb, obj, now, answers, status);
    }

    /** Two passes with the same inputs, of which the first cannot write its update. The second succeeds, but it
        reaches the desired state exactly if a watch event has renewed the copy in between or the deadline is
        due again; otherwise the update is lost and the store stays as it was. */
    method RetryLostUpdate(k: nat, obj: SourceObject, lookup: ObjectName -> Lookup, before: int, now: int,
                           renewed: bool, answers: Answers)
      returns (status: Status)
      requires Valid() && pc.Idle? && source == Some(obj) && ReadyFor(obj, lookup) && Granted(answers)
      requires k in cache && endpoints == cache
      requires before <= now && NeedsUpdate(cache[k], Referred(obj, lookup).lb, obj, obj.offer.value, before)
      modifies this
      ensures Valid() && pc.Idle? && status == Succeeded
      ensures source == Some(obj.(state := obj.state.(finalizer := true)))
      ensures var unwritten := UpdatedEndpoint(old(cache)[k], Referred(obj, lookup).lb, obj, obj.offer.value, before);
              && (endpoints == cache <==>
                    renewed || (Lease.Limited(Referred(obj, lookup).lb.interval)
                                && unwritten.validUntil.value - now <= Lease.RENEW_BELOW))
              && (endpoints != cache ==> endpoints == old(endpoints) && cache == map[k := unwritten])
    {
      ghost var e := cache[k];
      FailToUpdate(k, obj, lookup, before, renewed, answers);
      var again := source.value;
      ghost var found := cache;
      assert endpoints == map[k := e];
      assert k in found;
      assert Writable(map[k := e], found, answers.update);
      status := PassAgain(again, lookup, now, answers);
      RetriedUpdate(k, e, Referred(obj, lookup).lb, obj, again, before, now, renewed);
    }

    /** A user or another controller changes the source object without touching its finalizers. */
    method EditSource(obj: SourceObject)
      requires Valid() && source.Some? && obj.state == source.value.state
      modifies this`source
      ensures Valid() && source == Some(obj)
    {
      ghost var before := Abs();
      source := Some(obj);
      assert Abs() == before;
    }

    /** A refused source: its endpoint is deleted if possible, and a failure of that is ignored. */
    method Drop(slave: Option<nat>, answers: Answers)
      requires Valid() && pc.Loaded? && pc.slave == slave
      requires if slave.Some? then cache.Keys == {slave.value} else cache == map[]
      modifies this`pc, this`endpoints
      ensures Valid() && pc.Idle?
      ensures endpoints == if Deletable(old(endpoints), answers.delete) then map[] else old(endpoints)
    {
      var ok := DropSlave(slave, answers.delete);
      if ok {
        GiveUp();
      }
    }

    /** Deleting the one slave there can be leaves no endpoint, or the store as it was. */
    method DropSlave(slave: Option<nat>, accepted: nat -> bool) returns (ok: bool)
      requires Valid() && pc.Loaded? && pc.slave == slave
      requires if slave.Some? then cache.Keys == {slave.value} else cache == map[]
      modifies this`pc, this`endpoints
      ensures Valid() && ok == Deletable(old(endpoints), accepted)
      ensures endpoints == if ok then map[] else old(endpoints)
      ensures pc == if ok then Ownership.Unlinked(old(pc.hasFinalizer)) else Ownership.Idle
    {
      Facts();
      ok := ApiDeleteSlave(slave, accepted);
      assert forall k :: k in old(endpoints) ==> k in old(Abs()).endpoints && k in old(Abs()).cache;
    }

    /** An accepted source: first the finalizer, then the endpoint. */
    method Maintain(obj: SourceObject, slave: Option<nat>, lb: LoadBalancer, now: int, answers: Answers)
      returns (status: Status)
      requires Valid() && pc == Ownership.Loaded(obj.state.finalizer, true, slave)
      requires source == Some(obj) && obj.offer.Some?
      requires if slave.Some? then cache.Keys == {slave.value} else cache == map[]
      modifies this
      ensures Valid() && pc.Idle?
      ensures var finalized := obj.state.finalizer || answers.setFinalizer;
              && source == Some(obj.(state := obj.state.(finalizer := finalized)))
              && (if finalized
                  then SlaveMaintained(old(endpoints), old(cache), endpoints, cache, lb, obj, now, answers,
                                       status)
                  else status == Delayed && endpoints == old(endpoints) && cache == old(cache))
    {
      Facts();
      var ok := ApiSetFinalizer(obj, answers.setFinalizer);
      if !ok {
        return Delayed;
      }
      if slave.None? {
        status := CreateSlave(obj, lb, now, answers);
      } else {
        status := MaintainSlave(obj, slave.value, lb, now, answers);
      }
    }

    method CreateSlave(obj: SourceObject, lb: LoadBalancer, now: int, answers: Answers) returns (status: Status)
      requires Valid() && pc == Ownership.Ready(None) && cache == map[] && obj.offer.Some?
      modifies this`pc, this`endpoints, this`cache, this`next
      ensures Valid() && pc.Idle?
      ensures SlaveMaintained(old(endpoints), old(cache), endpoints, cache, lb, obj, now, answers, status)
    {
      Facts();
      assert endpoints == map[];
      ghost var k := next;
      ApiCreate(NewEndpoint(lb, obj, obj.offer.value, now), answers.create);
      if answers.create {
        CopyOfOne(cache, k);
      }
      status := if answers.create then Succeeded else Delayed;
    }

    /** Updates an existing endpoint if anything about it changes, and leaves it alone otherwise. */
    method MaintainSlave(obj: SourceObject, k: nat, lb: LoadBalancer, now: int, answers: Answers)
      returns (status: Status)
      requires Valid() && pc == Ownership.Ready(Some(k)) && cache.Keys == {k} && obj.offer.Some?
      modifies this`pc, this`endpoints, this`cache
      ensures Valid() && pc.Idle?
      ensures SlaveMaintained(old(endpoints), old(cache), endpoints, cache, lb, obj, now, answers, status)
    {
      Facts();
      var newep := NewEndpoint(lb, obj, obj.offer.value, now);
      ghost var before, stored, found := Abs(), endpoints, cache;
      var modified := UpdateEndpoint(k, newep, lb, obj, obj.offer.value, now);
      assert cache == Unwritten(found, lb, obj, now);
      assert Abs() == before;
      if !modified {
        UpdateKept(k, stored, found, lb, obj, now, answers);
        GiveUp();
        return Succeeded;
      }
      var actual := ApiUpdate(k, answers.update);
      match actual
      case Written =>
        assert endpoints == cache == map[k := cache[k]];
        UpdateWritten(k, stored, found, lb, obj, now, answers);
        return Succeeded;
      case Conflict =>
        UpdateRefused(k, stored, found, lb, obj, now, answers, Repeated);
        return Repeated;
      case Broken =>
        UpdateRefused(k, stored, found, lb, obj, now, answers, Delayed);
        return Delayed;
    }

    /** Not, or no longer, a source: first the endpoint, then the finalizer. */
    method Release(obj: SourceObject, slave: Option<nat>, answers: Answers) returns (status: Status)
      requires Valid() && pc == Ownership.Loaded(obj.state.finalizer, false, slave) && source == Some(obj)
      requires if slave.Some? then cache.Keys == {slave.value} else cache == map[]
      modifies this`pc, this`endpoints, this`source
      ensures Valid() && pc.Idle?
      ensures var deleted := Deletable(old(endpoints), answers.delete);
              var released := deleted && (!obj.state.finalizer || answers.removeFinalizer);
              && endpoints == (if deleted then map[] else old(endpoints))
              && status == (if released then Succeeded else Delayed)
              && source == if released && obj.state.finalizer then Released(obj) else Some(obj)
    {
      var ok := DropSlave(slave, answers.delete);
      if !ok {
        return Delayed;
      }
      ok := ApiRemoveFinalizer(obj, answers.removeFinalizer);
      return if ok then Succeeded else Delayed;
    }

    method ApiDeleteOne(k: nat, accepted: bool)
      requires Valid() && pc.Deleting? && k in pc.todo
      modifies this`pc, this`endpoints
      ensures Valid()
      ensures var ok := k !in old(endpoints) || accepted;
              && endpoints == (if ok then old(endpoints) - {k} else old(endpoints))
              && pc == Ownership.Deleting(old(pc.hasFinalizer), old(pc.todo) - {k}, old(pc.failed) || !ok)
    {
      ghost var before := Abs();
      var ok := k !in endpoints || accepted;
      if ok {
        endpoints := endpoints - {k};
      }
      pc := pc.(todo := pc.todo - {k}, failed := pc.failed || !ok);
      assert endpoints.Keys == if ok then before.endpoints - {k} else before.endpoints;
      Ownership.ReachesNext(Ownership.ASSUMED, before, Ownership.DeleteOne(k, ok), Abs());
    }

    method DeleteNext(k: nat, accepted: nat -> bool, before: bool,
                      ghost stored: map<nat, EndpointData>, ghost todo: set<nat>)
      returns (failed: bool)
      requires Valid() && pc.Deleting? && pc.todo == todo && pc.failed == before && k in todo
      requires endpoints == Left(stored, todo, accepted) && before == Remains(stored, todo, accepted)
      modifies this`pc, this`endpoints
      ensures Valid() && pc == Ownership.Deleting(old(pc.hasFinalizer), todo - {k}, failed)
      ensures endpoints == Left(stored, todo - {k}, accepted)
      ensures failed == Remains(stored, todo - {k}, accepted)
    {
      failed := before || (k in endpoints && !accepted(k));
      LeftOneLess(stored, todo, accepted, k);
      ApiDeleteOne(k, accepted(k));
    }

    /** The loop of `Delete` over all slaves; one failure does not stop it. */
    method DeleteSlaves(accepted: nat -> bool) returns (failed: bool)
      requires Valid() && pc.Loaded?
      modifies this`pc, this`endpoints
      ensures Valid()
      ensures pc == if failed then Ownership.Idle else Ownership.Unlinked(old(pc.hasFinalizer))
      ensures failed == !Deletable(old(endpoints), accepted)
      ensures endpoints == map k | k in old(endpoints) && !accepted(k) :: old(endpoints)[k]
    {
      Facts();
      ghost var stored := endpoints;
      LeftBefore(stored, cache.Keys, accepted);
      LeftAfter(stored, accepted);
      ghost var start := Abs();
      pc := Ownership.Deleting(pc.hasFinalizer, cache.Keys, false);
      Ownership.ReachesNext(Ownership.ASSUMED, start, Ownership.BeginDelete, Abs());
      var todo := cache.Keys;
      failed := false;
      while todo != {}
        invariant Valid() && pc == Ownership.Deleting(old(pc.hasFinalizer), todo, failed)
        invariant endpoints == Left(stored, todo, accepted)
        invariant failed == Remains(stored, todo, accepted)
      {
        var k :| k in todo;
        failed := DeleteNext(k, accepted, failed, stored, todo);
        todo := todo - {k};
      }
      ghost var before := Abs();
      pc := if failed then Ownership.Idle else Ownership.Unlinked(pc.hasFinalizer);
      Ownership.ReachesNext(Ownership.ASSUMED, before, Ownership.FinishDelete, Abs());
    }

    /** One pass over a source that is being deleted. It takes the finalizer off only when no endpoint is
        left. A pass without failures does so exactly if the annotation is still there: without it the
        object is not recognised, the pass succeeds and leaves endpoints and finalizer in place. */
    method Delete(obj: SourceObject, answers: Answers) returns (status: Status)
      requires Valid() && pc.Idle? && source == Some(obj)
      modifies this
      ensures Valid() && pc.Idle? && cache == old(cache)
      ensures !Resolve(obj).1 ==> status == Succeeded && source == old(source) && endpoints == old(endpoints)
      ensures Resolve(obj).1 ==>
                var deleted := Deletable(old(endpoints), answers.delete);
                var released := deleted && (!obj.state.finalizer || answers.removeFinalizer);
                && endpoints == (map k | k in old(endpoints) && !answers.delete(k) :: old(endpoints)[k])
                && status == (if released then Succeeded else Delayed)
                && source == if released && obj.state.finalizer then Released(obj) else Some(obj)
      ensures source != old(source) ==> endpoints == map[]
      ensures obj.state.finalizer && obj.offer.Some? && answers.removeFinalizer && (forall k :: answers.delete(k)) ==>
                status == Succeeded && (source != old(source) <==> ANNOTATION in obj.annotations)
    {
      var ref, isSource := IsValid(obj);
      if !isSource {
        return Succeeded;
      }
      var _ := LoadSlave(obj, false);
      var failed := DeleteSlaves(answers.delete);
      if failed {
        return Delayed;
      }
      assert endpoints.Keys == {};
      var ok := ApiRemoveFinalizer(obj, answers.removeFinalizer);
      return if ok then Succeeded else Delayed;
    }
  }

  /** The source once our finalizer is taken off. */
  function Released(obj: SourceObject): (r: Option<SourceObject>)
    ensures r == if obj.state.deleting && !obj.state.others then None
                 else Some(obj.(state := Ownership.SourceState(false, obj.state.others, obj.state.deleting)))
  {
    var state := obj.state.(finalizer := false);
    if Ownership.Surviving(state).None? then None else Some(obj.(state := state))
  }

  /** A service with one address, created and never written to by anyone. */
  function ServiceAt(ip: string): SourceObject {
    SourceObject("svc", "ns", map[ANNOTATION := "lb"], Some(ServiceSource(LOAD_BALANCER, [Ingress(ip, "")])),
                 Ownership.SourceState(false, false, false))
  }

  const HOME := LoadBalancer("ns", "lb", "dns.name", None)

  function AtHome(ref: ObjectName): Lookup {
    if ref == ObjectName("ns", "lb") then Found(HOME) else NotFound
  }

  lemma ServiceIsReady(ip: string, obj: SourceObject)
    requires ip != "" && obj.namespace == "ns" && obj.annotations == ServiceAt(ip).annotations
    requires obj.offer == ServiceAt(ip).offer
    ensures ReadyFor(obj, AtHome) && Referred(obj, AtHome) == Found(HOME)
    ensures Offered(obj.offer.value, HOME.dnsName) == Address(ip, "")
  {
    var status := [Ingress(ip, "")];
    assert Usable(status[0]) && status[0] in status;
    assert status[..|status| - 1] == [];
    assert StatusAddress(status) == Address(ip, "");
    assert Slashes("lb") == 0;
    ParseRule("ns", "lb");
  }

  lemma NewAddressNeedsUpdate(e: EndpointData, lb: LoadBalancer, src: SourceObject, offer: Source, now: int)
    requires e.ipAddress != Offered(offer, lb.dnsName).ip
    ensures NeedsUpdate(e, lb, src, offer, now)
  {
  }

  lemma CreatedOne(endpoints: map<nat, EndpointData>, cache: map<nat, EndpointData>,
                   lb: LoadBalancer, obj: SourceObject, now: int, answers: Answers) returns (k: nat)
    requires obj.offer.Some? && answers.create
    requires SlaveMaintained(map[], map[], endpoints, cache, lb, obj, now, answers, Succeeded)
    ensures endpoints == cache && cache.Keys == {k}
    ensures cache[k].ipAddress == Offered(obj.offer.value, lb.dnsName).ip
  {
    assert |cache| == 1;
    k :| k in cache;
    assert |cache.Keys| == 1 && |cache.Keys - {k}| == 0;
    DesiredState(None, lb, obj, obj.offer.value, now);
  }

  /** A source whose endpoint has just been created. */
  method CreateService(ip: string, answers: Answers) returns (r: Reconciler, k: nat)
    requires ip != "" && Granted(answers)
    ensures fresh(r) && r.Valid() && r.pc.Idle? && r.endpoints == r.cache && r.cache.Keys == {k}
    ensures r.cache[k].ipAddress == ip
    ensures var obj := ServiceAt(ip); r.source == Some(obj.(state := obj.state.(finalizer := true)))
  {
    ServiceIsReady(ip, ServiceAt(ip));
    r := new Reconciler(Some(ServiceAt(ip)));
    var _ := r.Reconcile(ServiceAt(ip), AtHome, 0, answers);
    ghost var one := CreatedOne(r.endpoints, r.cache, HOME, ServiceAt(ip), 0, answers);
    assert one in r.cache;
    k :| k in r.cache;
    assert k == one;
  }

  /** A history of a lost update. An endpoint is created, the address of its service changes, one update fails, and
      the next pass succeeds: the service still appears in the store under its first address. */
  method LoseAddressChange(answers: Answers) returns (r: Reconciler, status: Status)
    requires Granted(answers)
    ensures fresh(r) && r.Valid() && r.pc.Idle? && status == Succeeded
    ensures r.source.Some? && r.source.value.offer == ServiceAt("second").offer
    ensures r.endpoints != map[] && r.endpoints != r.cache
    ensures forall k :: k in r.endpoints ==> r.endpoints[k].ipAddress == "first"
  {
    assert |"first"| == 5 && |"second"| == 6;
    var k;
    r, k := CreateService("first", answers);
    ghost var created := r.cache[k];
    assert r.endpoints == map[k := created];
    var moved := r.source.value.(offer := ServiceAt("second").offer);
    ServiceIsReady("second", moved);
    NewAddressNeedsUpdate(created, HOME, moved, moved.offer.value, 1);
    r.EditSource(moved);
    status := r.RetryLostUpdate(k, moved, AtHome, 1, 2, false, answers);
    assert k in r.endpoints;
  }
}
