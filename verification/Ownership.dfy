/** One source, its endpoints and the source reconciler, in single API operations. Between any two of
    them the process may crash, users may act, and other controllers may delete endpoints. */
module Ownership {
  import opened Api

  /** Two ways in which the surroundings may be worse than the reconciler assumes. */
  datatype Env = Env(
    lostCreates: bool,      // a create may take effect although it reports an error
    staleFinalizers: bool)  // an object that asks for an endpoint may still show a finalizer that is gone

  /** The source as stored: our finalizer, finalizers of others, and the deletion mark. */
  datatype SourceState = SourceState(finalizer: bool, others: bool, deleting: bool)

  /** Where the reconciler stands, with the parts of its snapshot that matter: whether it shows our finalizer,
      and whether it refers to a load balancer and so asks for an endpoint. */
  datatype Pc =
    | Idle
    | Loaded(hasFinalizer: bool, wanted: bool, slave: Option<nat>)  // object and its single slave looked up
    | Ready(slave: Option<nat>)                                     // finalizer assured, endpoint not yet written
    | Deleting(hasFinalizer: bool, todo: set<nat>, failed: bool)
    | Unlinked(hasFinalizer: bool)                                  // endpoints deleted, finalizer not yet removed

  datatype State = State(
    source: Option<SourceState>,
    endpoints: set<nat>,      // stored endpoints owned by the source
    cache: set<nat>,          // what the slave lookup finds
    next: nat,                // generated names are never reused
    hadFinalizer: bool,       // some version of the source carried our finalizer
    pc: Pc)

  datatype Created = Done | Rejected | Lost

  datatype Step =
    // users, other controllers, the watch and crashes
    | UserCreates(others: bool)
    | UserDeletes
    | OthersRelease
    | EndpointVanishes(id: nat)
    | Watch(id: nat)
    | Crash
    // Reconcile and Delete
    | Begin(hasFinalizer: bool, wanted: bool, slave: Option<nat>)
    | GiveUp
    | SetFinalizer(ok: bool)
    | Create(answer: Created)
    | Update
    | DeleteSlave(ok: bool)
    | BeginDelete
    | DeleteOne(id: nat, ok: bool)
    | FinishDelete
    | RemoveFinalizer(ok: bool)

  predicate HasFinalizer(s: State) {
    s.source.Some? && s.source.value.finalizer
  }

  /** A marked object is gone once its last finalizer is. */
  function Surviving(src: SourceState): Option<SourceState> {
    if src.deleting && !src.finalizer && !src.others then None else Some(src)
  }

  function WithSource(s: State, src: SourceState): State {
    s.(source := Surviving(src), hadFinalizer := s.hadFinalizer || src.finalizer)
  }

  function KeptSlaves(slave: Option<nat>): set<nat> {
    if slave.Some? then {slave.value} else {}
  }

  predicate Enabled(env: Env, s: State, step: Step) {
    match step
    case UserCreates(_) => s.source.None?
    case UserDeletes => s.source.Some?
    case OthersRelease => s.source.Some?
    case EndpointVanishes(id) => id in s.endpoints
    case Watch(_) => true
    case Crash => true
    case Begin(hasFinalizer, wanted, slave) =>
      // the snapshot may lag behind the stored object
      && s.pc.Idle?
      && (hasFinalizer ==> HasFinalizer(s) || (s.hadFinalizer && (!wanted || env.staleFinalizers)))
      && (if slave.Some? then slave.value in s.cache else s.cache == {})
    case GiveUp => !s.pc.Idle?
    case SetFinalizer(ok) => s.pc.Loaded? && s.pc.wanted && (ok && !s.pc.hasFinalizer ==> s.source.Some?)
    case Create(answer) => s.pc.Ready? && s.pc.slave.None? && (answer.Lost? ==> env.lostCreates)
    case Update => s.pc.Ready? && s.pc.slave.Some?
    case DeleteSlave(_) => s.pc.Loaded?
    case BeginDelete => s.pc.Loaded?
    case DeleteOne(id, _) => s.pc.Deleting? && id in s.pc.todo
    case FinishDelete => s.pc.Deleting? && s.pc.todo == {}
    case RemoveFinalizer(_) => s.pc.Unlinked?
  }

  function Apply(s: State, step: Step): State {
    match step
    case UserCreates(others) => s.(source := Some(SourceState(false, others, false)))
    case UserDeletes => if s.source.None? then s else WithSource(s, s.source.value.(deleting := true))
    case OthersRelease => if s.source.None? then s else WithSource(s, s.source.value.(others := false))
    case EndpointVanishes(id) => s.(endpoints := s.endpoints - {id})
    case Watch(id) => s.(cache := if id in s.endpoints then s.cache + {id} else s.cache - {id})
    case Crash => s.(pc := Idle, cache := s.endpoints)
    case Begin(hasFinalizer, wanted, slave) => s.(pc := Loaded(hasFinalizer, wanted, slave))
    case GiveUp => s.(pc := Idle)
    case SetFinalizer(ok) =>
      if !s.pc.Loaded? then s
      else if s.pc.hasFinalizer then s.(pc := Ready(s.pc.slave))  // nothing to do, so no call
      else if ok && s.source.Some? then WithSource(s.(pc := Ready(s.pc.slave)), s.source.value.(finalizer := true))
      else s.(pc := Idle)
    case Create(answer) =>
      s.(pc := Idle,
         next := s.next + 1,
         endpoints := if answer.Rejected? then s.endpoints else s.endpoints + {s.next},
         cache := if answer.Done? then s.cache + {s.next} else s.cache)
    case Update => s.(pc := Idle)
    case DeleteSlave(ok) =>
      if !s.pc.Loaded? then s
      else if s.pc.slave.None? || ok then
        s.(endpoints := s.endpoints - KeptSlaves(s.pc.slave), pc := Unlinked(s.pc.hasFinalizer))
      else s.(pc := Idle)
    case BeginDelete => if !s.pc.Loaded? then s else s.(pc := Deleting(s.pc.hasFinalizer, s.cache, false))
    case DeleteOne(id, ok) =>
      if !s.pc.Deleting? then s
      else if ok then s.(endpoints := s.endpoints - {id}, pc := s.pc.(todo := s.pc.todo - {id}))
      else s.(pc := s.pc.(todo := s.pc.todo - {id}, failed := true))
    case FinishDelete =>
      if !s.pc.Deleting? then s else s.(pc := if s.pc.failed then Idle else Unlinked(s.pc.hasFinalizer))
    case RemoveFinalizer(ok) =>
      if s.pc.Unlinked? && s.pc.hasFinalizer && ok && s.source.Some? then
        WithSource(s.(pc := Idle), s.source.value.(finalizer := false))
      else s.(pc := Idle)
  }

  ghost predicate Start(s: State) {
    s.endpoints == s.cache == {} && s.pc == Idle && !HasFinalizer(s)
  }

  ghost predicate IsRun(env: Env, states: seq<State>, steps: seq<Step>) {
    && |states| == |steps| + 1 && Start(states[0])
    && forall i :: 0 <= i < |steps| ==> Enabled(env, states[i], steps[i]) && states[i + 1] == Apply(states[i], steps[i])
  }

  /** At most one endpoint, and only while the source exists and carries our finalizer. */
  predicate NoOrphan(s: State) {
    && (forall a, b :: a in s.endpoints && b in s.endpoints ==> a == b)
    && (s.endpoints != {} ==> HasFinalizer(s))
  }

  ghost predicate Safe(env: Env) {
    forall states: seq<State>, steps: seq<Step> :: IsRun(env, states, steps) ==> NoOrphan(states[|steps|])
  }

  // ---- the invariant in the assumed surroundings ----

  predicate PcOk(s: State) {
    match s.pc
    case Idle => true
    case Loaded(hasFinalizer, wanted, slave) =>
      (wanted && hasFinalizer ==> HasFinalizer(s)) && s.cache <= KeptSlaves(slave)
    case Ready(slave) => HasFinalizer(s) && s.cache <= KeptSlaves(slave)
    case Deleting(hasFinalizer, todo, failed) => !failed ==> s.endpoints <= todo
    case Unlinked(hasFinalizer) => s.endpoints == {}
  }

  predicate Inv(s: State) {
    && s.endpoints <= s.cache
    && (forall a, b :: a in s.cache && b in s.cache ==> a == b)
    && (s.endpoints != {} ==> HasFinalizer(s))
    && (forall id :: id in s.cache ==> id < s.next)
    && PcOk(s)
  }

  const ASSUMED := Env(false, false)

  lemma StepKeepsInv(s: State, step: Step)
    requires Inv(s) && Enabled(ASSUMED, s, step)
    ensures Inv(Apply(s, step))
  {
  }

  lemma {:induction false} InvAlways(states: seq<State>, steps: seq<Step>, n: nat)
    requires IsRun(ASSUMED, states, steps) && n <= |steps|
    ensures Inv(states[n])
  {
    if n > 0 {
      InvAlways(states, steps, n - 1);
      StepKeepsInv(states[n - 1], steps[n - 1]);
    }
  }

  /** When the source object disappears, no endpoint of it is left. */
  lemma VanishingLeavesNothing(states: seq<State>, steps: seq<Step>, i: nat)
    requires IsRun(ASSUMED, states, steps) && i < |steps|
    requires states[i].source.Some? && states[i + 1].source.None?
    ensures states[i].endpoints == {} && states[i + 1].endpoints == {}
  {
    InvAlways(states, steps, i);
    InvAlways(states, steps, i + 1);
  }

  // ---- both assumptions are needed ----

  const FRESH := State(Some(SourceState(false, false, false)), {}, {}, 0, false, Idle)

  ghost predicate Reaches(env: Env, s: State) {
    exists states: seq<State>, steps: seq<Step> :: IsRun(env, states, steps) && states[|steps|] == s
  }

  lemma ReachesStart(env: Env, s: State)
    requires Start(s)
    ensures Reaches(env, s)
  {
    var states: seq<State>, steps: seq<Step> := [s], [];
    assert IsRun(env, states, steps) && states[|steps|] == s;
  }

  lemma ReachedInv(s: State)
    requires Reaches(ASSUMED, s)
    ensures Inv(s)
  {
    var states: seq<State>, steps: seq<Step> :| IsRun(ASSUMED, states, steps) && states[|steps|] == s;
    InvAlways(states, steps, |steps|);
  }

  /** The history bit is never behind. */
  lemma ReachedHadFinalizer(s: State)
    requires Reaches(ASSUMED, s)
    ensures HasFinalizer(s) ==> s.hadFinalizer
  {
    var states: seq<State>, steps: seq<Step> :| IsRun(ASSUMED, states, steps) && states[|steps|] == s;
    HistoryKept(states, steps, |steps|);
  }

  lemma {:induction false} HistoryKept(states: seq<State>, steps: seq<Step>, n: nat)
    requires IsRun(ASSUMED, states, steps) && n <= |steps|
    ensures HasFinalizer(states[n]) ==> states[n].hadFinalizer
  {
    if n > 0 {
      HistoryKept(states, steps, n - 1);
    }
  }

  lemma ReachesNext(env: Env, s: State, step: Step, t: State)
    requires Reaches(env, s) && Enabled(env, s, step) && t == Apply(s, step)
    ensures Reaches(env, t)
  {
    var states: seq<State>, steps: seq<Step> :| IsRun(env, states, steps) && states[|steps|] == s;
    var states', steps' := states + [t], steps + [step];
    forall i | 0 <= i < |steps'|
      ensures Enabled(env, states'[i], steps'[i]) && states'[i + 1] == Apply(states'[i], steps'[i])
    {
      if i < |steps| {
        assert states'[i] == states[i] && steps'[i] == steps[i] && states'[i + 1] == states[i + 1];
      }
    }
    assert IsRun(env, states', steps') && states'[|steps'|] == t;
  }

  lemma OrphanReached(env: Env, s: State)
    requires Reaches(env, s) && !NoOrphan(s)
    ensures !Safe(env)
  {
  }

  const FINALIZED := State(Some(SourceState(true, false, false)), {}, {}, 0, true, Idle)
  const RELEASED := State(Some(SourceState(false, false, false)), {}, {}, 0, true, Idle)

  /** A fresh source gets its finalizer. */
  lemma ReachesFinalized(env: Env)
    ensures Reaches(env, FINALIZED.(pc := Ready(None)))
  {
    ReachesStart(env, FRESH);
    var loaded := FRESH.(pc := Loaded(false, true, None));
    ReachesNext(env, FRESH, Begin(false, true, None), loaded);
    ReachesNext(env, loaded, SetFinalizer(true), FINALIZED.(pc := Ready(None)));
  }

  /** A pass that finds no slave takes the finalizer off again. */
  lemma ReachesUnfinalized(env: Env, s: State, t: State)
    requires Reaches(env, s) && s.pc == Idle && s.cache == {}
    requires s.source == Some(SourceState(true, false, false)) && s.hadFinalizer
    requires t == s.(source := Some(SourceState(false, false, false)))
    ensures Reaches(env, t)
  {
    ReachesNext(env, s, Begin(true, false, None), s.(pc := Loaded(true, false, None)));
    ReachesNext(env, s.(pc := Loaded(true, false, None)), DeleteSlave(true), s.(pc := Unlinked(true)));
    ReachesNext(env, s.(pc := Unlinked(true)), RemoveFinalizer(true), t);
  }

  /** A create that took effect unnoticed is not found when the annotation goes away. */
  lemma LostCreateOrphans(env: Env)
    requires env.lostCreates
    ensures !Safe(env)
  {
    ReachesFinalized(env);
    var created := State(Some(SourceState(true, false, false)), {0}, {}, 1, true, Idle);
    ReachesNext(env, FINALIZED.(pc := Ready(None)), Create(Lost), created);
    var orphan := created.(source := Some(SourceState(false, false, false)));
    ReachesUnfinalized(env, created, orphan);
    assert 0 in orphan.endpoints;
    OrphanReached(env, orphan);
  }

  /** A source once finalized and, with its annotation gone, released again. */
  lemma ReachesReleased(env: Env)
    ensures Reaches(env, RELEASED)
  {
    ReachesFinalized(env);
    ReachesNext(env, FINALIZED.(pc := Ready(None)), GiveUp, FINALIZED);
    ReachesUnfinalized(env, FINALIZED, RELEASED);
  }

  /** A snapshot that asks for an endpoint and still shows the removed finalizer lets one be created without.
      It needs no restart: the removal is retried on the newest object, so a reference that is put back while the
      release is under way loses the finalizer, and the next pass may still be handed the object as it was before
      that. */
  lemma StaleFinalizerOrphans(env: Env)
    requires env.staleFinalizers
    ensures !Safe(env)
  {
    ReachesReleased(env);
    ReachesNext(env, RELEASED, Begin(true, true, None), RELEASED.(pc := Loaded(true, true, None)));
    ReachesNext(env, RELEASED.(pc := Loaded(true, true, None)), SetFinalizer(true), RELEASED.(pc := Ready(None)));
    var orphan := State(Some(SourceState(false, false, false)), {0}, {0}, 1, true, Idle);
    ReachesNext(env, RELEASED.(pc := Ready(None)), Create(Done), orphan);
    assert 0 in orphan.endpoints;
    OrphanReached(env, orphan);
  }

  /** In every reachable state, whatever fails, crashes or is edited in between, and although the reconciler may
      be handed outdated objects, the source owns at most one endpoint and only while it carries the finalizer, if
      and only if creates never take effect while reporting an error and no object that asks for an endpoint still
      shows a finalizer that is gone. */
  lemma NoOrphansIff(env: Env)
    ensures Safe(env) <==> !env.lostCreates && !env.staleFinalizers
  {
    if env.lostCreates {
      LostCreateOrphans(env);
    } else if env.staleFinalizers {
      StaleFinalizerOrphans(env);
    } else {
      forall states: seq<State>, steps: seq<Step> | IsRun(env, states, steps)
        ensures NoOrphan(states[|steps|])
      {
        InvAlways(states, steps, |steps|);
      }
    }
  }
}
