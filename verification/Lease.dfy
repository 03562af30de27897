/** Endpoint leases: the source controller renews deadlines lazily, the DNS controller deletes what has
    expired. Both read one clock in nanoseconds; the API server keeps deadlines in whole seconds. */
module Lease {
  import opened Api

  const RENEW_BELOW: int := 120 * SECOND
  const GRACE: int := 180 * SECOND

  predicate Limited(interval: Option<int>) {
    interval.Some? && interval.value != 0
  }

  function UpdateDeadline(interval: Option<int>, deadline: Option<int>, now: int): Option<int> {
    if !Limited(interval) then None
    else if deadline.Some? && deadline.value - now > RENEW_BELOW then deadline
    else Some(now + interval.value)
  }

  /** The JSON form of a time has no fraction of a second. */
  function Rounded(deadline: Option<int>): Option<int> {
    if deadline.None? then None else Some(deadline.value - deadline.value % SECOND)
  }

  /** The deadline that a successful write stores. */
  function RenewedDeadline(interval: Option<int>, deadline: Option<int>, now: int): Option<int> {
    Rounded(UpdateDeadline(interval, deadline, now))
  }

  /** The update compares pointers: a fresh deadline counts as a change whatever its value. */
  predicate DeadlineChanged(interval: Option<int>, deadline: Option<int>, now: int) {
    if Limited(interval) then deadline.None? || deadline.value - now <= RENEW_BELOW else deadline.Some?
  }

  predicate InGrace(now: int, started: int) {
    now < started + GRACE
  }

  predicate Expired(deadline: Option<int>, now: int) {
    deadline.Some? && deadline.value < now
  }

  // ---- the two controllers and everything between them ----

  datatype Copy = Absent | Present(deadline: Option<int>)

  /** One source: its stored endpoint, the copy in the source controller's cache, when a reconcile last
      succeeded, and the DNS controller's copy together with the reconcile this copy reflects. */
  datatype Tracked = Tracked(stored: Copy, mine: Copy, renewedAt: Option<int>, seen: Copy, seenAt: Option<int>)

  datatype State = State(now: int, started: int, sources: map<string, Tracked>)

  datatype Step =
    | Tick(dt: nat)
      // a reconcile of an accepted source: the interval then configured, whether another field of the
      // endpoint differs from the desired one, and whether the API server accepts a write
    | Pass(id: string, interval: Option<int>, touched: bool, ok: bool)
    | Refresh(id: string)         // a watch event or a restart renews the copy of the source controller
    | Withdraw(id: string)        // the endpoint is deleted by its own controller or by a user
    | Observe(id: string)         // the stored object reaches the DNS controller's index
    | CleanUp(ids: set<string>)   // a DNS round over some of the endpoints
    | Restart                     // the DNS controller starts again and lists everything

  function DeadlineOf(c: Copy): Option<int> {
    if c.Present? then c.deadline else None
  }

  function SeenNow(src: Tracked): Tracked {
    src.(seen := src.stored, seenAt := src.renewedAt)
  }

  /** A DNS round would delete this endpoint, as far as it offers an address: others it does not look at. */
  predicate Deletes(s: State, id: string) {
    id in s.sources && !InGrace(s.now, s.started)
    && s.sources[id].seen.Present? && Expired(s.sources[id].seen.deadline, s.now)
  }

  /** The pass finds something to write. */
  predicate Writes(src: Tracked, interval: Option<int>, touched: bool, now: int) {
    src.mine.Absent? || touched || DeadlineChanged(interval, src.mine.deadline, now)
  }

  /** One pass. It works from the cached copy, which it changes in place before it tries to write: after a
      failed update the copy keeps a deadline that was never stored. */
  function AfterPass(src: Tracked, interval: Option<int>, touched: bool, ok: bool, now: int): Tracked {
    if !Writes(src, interval, touched, now) then src.(renewedAt := Some(now))
    else if src.mine.Absent? then
      if ok then
        var c := Present(RenewedDeadline(interval, None, now));
        src.(stored := c, mine := c, renewedAt := Some(now))
      else src
    else if ok && src.stored.Present? then
      var c := Present(RenewedDeadline(interval, src.mine.deadline, now));
      src.(stored := c, mine := c, renewedAt := Some(now))
    else src.(mine := Present(UpdateDeadline(interval, src.mine.deadline, now)))
  }

  function Apply(s: State, step: Step): State {
    match step
    case Tick(dt) => s.(now := s.now + dt)
    case Pass(id, interval, touched, ok) =>
      if id !in s.sources then s
      else s.(sources := s.sources[id := AfterPass(s.sources[id], interval, touched, ok, s.now)])
    case Refresh(id) =>
      if id !in s.sources then s else s.(sources := s.sources[id := s.sources[id].(mine := s.sources[id].stored)])
    case Withdraw(id) =>
      if id !in s.sources then s else s.(sources := s.sources[id := s.sources[id].(stored := Absent)])
    case Observe(id) =>
      if id !in s.sources then s else s.(sources := s.sources[id := SeenNow(s.sources[id])])
    case CleanUp(ids) =>
      s.(sources := map id | id in s.sources ::
        if id in ids && Deletes(s, id) then s.sources[id].(stored := Absent) else s.sources[id])
    case Restart =>
      s.(started := s.now, sources := map id | id in s.sources :: SeenNow(s.sources[id]))
  }

  predicate WholeSeconds(c: Copy) {
    DeadlineOf(c).Some? ==> DeadlineOf(c).value % SECOND == 0
  }

  /** Anything may have happened before; in particular every deadline may be long past. */
  predicate Start(s: State) {
    forall id :: id in s.sources ==>
      var src := s.sources[id];
      src.renewedAt == None && src.seenAt == None && src.mine == src.stored
      && WholeSeconds(src.stored) && WholeSeconds(src.seen)
  }

  // ---- what may go wrong with updates ----

  /** An update of a stored endpoint fails. */
  predicate FailsUpdate(s: State, step: Step) {
    step.Pass? && step.id in s.sources
    && var src := s.sources[step.id];
       src.mine.Present? && src.stored.Present? && Writes(src, step.interval, step.touched, s.now) && !step.ok
  }

  /** A pass takes the "up to date" branch although its copy holds a deadline that was never stored. */
  predicate TrustsUnwritten(s: State, step: Step) {
    step.Pass? && step.id in s.sources
    && var src := s.sources[step.id];
       src.mine.Present? && src.stored.Present? && src.mine != src.stored
       && !Writes(src, step.interval, step.touched, s.now)
  }

  /** How bad the surroundings may be: updates never fail; they may fail, but no pass finds the changed copy
      up to date before it is written or refreshed; or anything goes. */
  datatype Losses = Never | Repaired | Trusted

  predicate Permits(losses: Losses, s: State, step: Step) {
    match losses
    case Never => !FailsUpdate(s, step)
    case Repaired => !TrustsUnwritten(s, step)
    case Trusted => true
  }

  /** Users may change the interval at any time, but never to a limit below dmin. */
  predicate AtLeast(step: Step, dmin: int) {
    step.Pass? && Limited(step.interval) ==> step.interval.value >= dmin
  }

  /** states[i] is the state before steps[i]. */
  ghost predicate IsRun(losses: Losses, dmin: int, states: seq<State>, steps: seq<Step>) {
    && |states| == |steps| + 1 && Start(states[0])
    && forall i :: 0 <= i < |steps| ==>
         && states[i + 1] == Apply(states[i], steps[i])
         && AtLeast(steps[i], dmin) && Permits(losses, states[i], steps[i])
  }

  /** The source counts as live: the DNS controller has just started, or the last successful
      reconcile it can see is at most gap old. */
  predicate Live(s: State, id: string, gap: nat) {
    id in s.sources
    && (s.now < s.started + 180 * SECOND
        || (s.sources[id].seenAt.Some? && s.now - s.sources[id].seenAt.value <= gap))
  }

  /** No DNS round ever deletes the endpoint of a live source. */
  ghost predicate Safe(gap: nat, dmin: int, losses: Losses) {
    forall states: seq<State>, steps: seq<Step>, id: string ::
      IsRun(losses, dmin, states, steps) && Live(states[|steps|], id, gap) ==> !Deletes(states[|steps|], id)
  }

  function Min(a: int, b: int): int {
    if a < b then a else b
  }

  /** How long one successful reconcile protects an endpoint at least. An unwritten deadline still has
      its fraction of a second to lose when a later pass writes it. */
  function Protection(dmin: int, losses: Losses): int
    requires losses != Trusted
  {
    if losses == Never then Min(RENEW_BELOW + 1, dmin - (SECOND - 1))
    else Min(RENEW_BELOW + 1, dmin) - (SECOND - 1)
  }

  // ---- safety ----

  predicate Protected(c: Copy, at: Option<int>, now: int, span: int) {
    WholeSeconds(c)
    && (at.Some? ==> at.value <= now && (DeadlineOf(c).Some? ==> DeadlineOf(c).value >= at.value + span))
  }

  /** While updates never fail, the cached copy of a stored endpoint is the stored one. */
  predicate Guarded(src: Tracked, now: int, dmin: int, losses: Losses)
    requires losses != Trusted
  {
    && Protected(src.stored, src.renewedAt, now, Protection(dmin, losses))
    && Protected(src.seen, src.seenAt, now, Protection(dmin, losses))
    && (losses == Never && src.stored.Present? ==> src.mine == src.stored)
    && (src.mine.Absent? ==> src.stored.Absent?)
  }

  ghost predicate AllGuarded(s: State, dmin: int, losses: Losses)
    requires losses != Trusted
  {
    forall id :: id in s.sources ==> Guarded(s.sources[id], s.now, dmin, losses)
  }

  lemma RenewalProtects(interval: Option<int>, deadline: Option<int>, now: int, dmin: int, losses: Losses)
    requires losses != Trusted && (Limited(interval) ==> interval.value >= dmin)
    requires losses == Never ==> WholeSeconds(Present(deadline))
    ensures Protected(Present(RenewedDeadline(interval, deadline, now)), Some(now), now, Protection(dmin, losses))
  {
  }

  lemma KeptProtects(interval: Option<int>, deadline: Option<int>, now: int, dmin: int, losses: Losses)
    requires losses != Trusted && WholeSeconds(Present(deadline)) && !DeadlineChanged(interval, deadline, now)
    ensures Protected(Present(deadline), Some(now), now, Protection(dmin, losses))
  {
  }

  lemma PassGuards(s: State, step: Step, dmin: int, losses: Losses)
    requires losses != Trusted && step.Pass? && step.id in s.sources
    requires Guarded(s.sources[step.id], s.now, dmin, losses) && AtLeast(step, dmin) && Permits(losses, s, step)
    ensures Guarded(AfterPass(s.sources[step.id], step.interval, step.touched, step.ok, s.now), s.now, dmin, losses)
  {
    var src := s.sources[step.id];
    if Writes(src, step.interval, step.touched, s.now) && (src.mine.Absent? || src.stored.Present?) {
      RenewalProtects(step.interval, DeadlineOf(src.mine), s.now, dmin, losses);
    } else if !Writes(src, step.interval, step.touched, s.now) && src.stored.Present? {
      KeptProtects(step.interval, DeadlineOf(src.mine), s.now, dmin, losses);
    }
  }

  lemma StepGuards(s: State, step: Step, dmin: int, losses: Losses)
    requires losses != Trusted
    requires AllGuarded(s, dmin, losses) && AtLeast(step, dmin) && Permits(losses, s, step)
    ensures AllGuarded(Apply(s, step), dmin, losses)
  {
    if step.Pass? && step.id in s.sources {
      PassGuards(s, step, dmin, losses);
    }
  }

  lemma {:induction false} GuardedAlways(losses: Losses, dmin: int, states: seq<State>, steps: seq<Step>, n: nat)
    requires losses != Trusted && IsRun(losses, dmin, states, steps) && n <= |steps|
    ensures AllGuarded(states[n], dmin, losses)
  {
    if n > 0 {
      GuardedAlways(losses, dmin, states, steps, n - 1);
      StepGuards(states[n - 1], steps[n - 1], dmin, losses);
    }
  }

  lemma NeverDeletesLive(losses: Losses, dmin: int, states: seq<State>, steps: seq<Step>, id: string, gap: nat)
    requires losses != Trusted && IsRun(losses, dmin, states, steps) && gap <= Protection(dmin, losses)
    requires Live(states[|steps|], id, gap)
    ensures !Deletes(states[|steps|], id)
  {
    GuardedAlways(losses, dmin, states, steps, |steps|);
  }

  // ---- and its limits ----

  /** A state that the surroundings can bring about. */
  ghost predicate Reaches(losses: Losses, dmin: int, s: State) {
    exists states: seq<State>, steps: seq<Step> :: IsRun(losses, dmin, states, steps) && states[|steps|] == s
  }

  lemma ReachesStart(losses: Losses, dmin: int, s: State)
    requires Start(s)
    ensures Reaches(losses, dmin, s)
  {
    var states: seq<State>, steps: seq<Step> := [s], [];
    assert IsRun(losses, dmin, states, steps) && states[|steps|] == s;
  }

  lemma ReachesNext(losses: Losses, dmin: int, s: State, step: Step)
    requires Reaches(losses, dmin, s) && AtLeast(step, dmin) && Permits(losses, s, step)
    ensures Reaches(losses, dmin, Apply(s, step))
  {
    var states: seq<State>, steps: seq<Step> :| IsRun(losses, dmin, states, steps) && states[|steps|] == s;
    var states', steps' := states + [Apply(s, step)], steps + [step];
    forall i | 0 <= i < |steps'|
      ensures states'[i + 1] == Apply(states'[i], steps'[i])
      ensures AtLeast(steps'[i], dmin) && Permits(losses, states'[i], steps'[i])
    {
      if i < |steps| {
        assert states'[i] == states[i] && steps'[i] == steps[i] && states'[i + 1] == states[i + 1];
      }
    }
    assert IsRun(losses, dmin, states', steps') && states'[|steps'|] == Apply(s, step);
  }

  lemma ReachesObserved(losses: Losses, dmin: int, s: State, wait: nat)
    requires Reaches(losses, dmin, s) && "a" in s.sources
    ensures Reaches(losses, dmin, State(s.now + wait, s.started, s.sources["a" := SeenNow(s.sources["a"])]))
  {
    ReachesNext(losses, dmin, s, Observe("a"));
    ReachesNext(losses, dmin, Apply(s, Observe("a")), Tick(wait));
  }

  lemma Unsafe(losses: Losses, dmin: int, s: State, gap: nat)
    requires Reaches(losses, dmin, s) && Live(s, "a", gap) && Deletes(s, "a")
    ensures !Safe(gap, dmin, losses)
  {
  }

  function Only(now: int, started: int, src: Tracked): State {
    State(now, started, map["a" := src])
  }

  /** A deadline kept because just more than 120 s remain runs out before a later reconcile is due. */
  lemma LazyRenewalTooLate(gap: nat, dmin: int, losses: Losses)
    requires gap > RENEW_BELOW + 1
    ensures !Safe(gap, dmin, losses)
  {
    var v := if dmin <= 0 then 1 else dmin;
    var c := Present(Some(220 * SECOND));
    var s := Only(100 * SECOND - 1, 0, Tracked(c, c, None, Absent, None));
    var step := Pass("a", Some(v), false, true);
    ReachesStart(losses, dmin, s);
    ReachesNext(losses, dmin, s, step);
    var t := Apply(s, step);
    assert t.sources["a"].stored == c && t.sources["a"].renewedAt == Some(s.now);
    ReachesObserved(losses, dmin, t, RENEW_BELOW + 2);
    Unsafe(losses, dmin, State(220 * SECOND + 1, 0, t.sources["a" := SeenNow(t.sources["a"])]), gap);
  }

  /** A deadline loses its fraction of a second when it is stored. */
  lemma RoundedDeadlineTooEarly(gap: nat, dmin: int, losses: Losses)
    requires gap > dmin - (SECOND - 1)
    ensures !Safe(gap, dmin, losses)
  {
    var v := if dmin <= 0 then 1 else dmin;
    var at := SECOND - 1 - v;
    var s := Only(at, at - GRACE, Tracked(Absent, Absent, None, Absent, None));
    var wait: nat := if at > 0 then 0 else 1 - at;
    var step := Pass("a", Some(v), false, true);
    ReachesStart(losses, dmin, s);
    ReachesNext(losses, dmin, s, step);
    var t := Apply(s, step);
    assert t.sources["a"].stored == Present(Some(0)) && t.sources["a"].renewedAt == Some(at);
    ReachesObserved(losses, dmin, t, wait);
    Unsafe(losses, dmin, State(at + wait, s.started, t.sources["a" := SeenNow(t.sources["a"])]), gap);
  }

  /** The deadline of a failed update is written by a later pass for another reason, and rounded only then. */
  lemma LateWriteTooEarly(gap: nat, dmin: int)
    requires gap > RENEW_BELOW + 1 - (SECOND - 1)
    ensures !Safe(gap, dmin, Repaired)
  {
    var v := if dmin < 121 * SECOND then 121 * SECOND else dmin;
    var c := Present(None);
    var begin := SECOND - 1 - v;
    var wait: nat := v - RENEW_BELOW - 1;
    var s := Only(begin, begin - GRACE, Tracked(c, c, None, Absent, None));
    var fail, write := Pass("a", Some(v), false, false), Pass("a", Some(v), true, true);
    ReachesStart(Repaired, dmin, s);
    ReachesNext(Repaired, dmin, s, fail);
    var t := Apply(s, fail);
    assert t.sources["a"] == Tracked(c, Present(Some(SECOND - 1)), None, Absent, None);
    ReachesNext(Repaired, dmin, t, Tick(wait));
    var u := Apply(t, Tick(wait));
    ReachesNext(Repaired, dmin, u, write);
    var w := Apply(u, write);
    assert w.sources["a"].stored == Present(Some(0)) && w.sources["a"].renewedAt == Some(u.now);
    ReachesObserved(Repaired, dmin, w, 1 - u.now);
    Unsafe(Repaired, dmin, State(1, w.started, w.sources["a" := SeenNow(w.sources["a"])]), gap);
  }

  /** A failed update, and a pass that finds the unwritten deadline up to date: the reconcile succeeds in the
      very instant in which the stored deadline has passed. */
  lemma UnwrittenDeadlineTrusted(gap: nat, dmin: int)
    ensures !Safe(gap, dmin, Trusted)
  {
    var v := if dmin < 300 * SECOND then 300 * SECOND else dmin;
    var c := Present(Some(60 * SECOND));
    var s := Only(0, -GRACE, Tracked(c, c, None, Absent, None));
    var fail, wait, trust := Pass("a", Some(v), false, false), Tick(60 * SECOND + 1), Pass("a", Some(v), false, true);
    ReachesStart(Trusted, dmin, s);
    ReachesNext(Trusted, dmin, s, fail);
    var t := Apply(s, fail);
    assert t.sources["a"].stored == c && t.sources["a"].mine == Present(Some(v));
    ReachesNext(Trusted, dmin, t, wait);
    var u := Apply(t, wait);
    ReachesNext(Trusted, dmin, u, trust);
    var w := Apply(u, trust);
    assert w.sources["a"].stored == c && w.sources["a"].renewedAt == Some(w.now);
    ReachesObserved(Trusted, dmin, w, 0);
    Unsafe(Trusted, dmin, State(w.now + 0, w.started, w.sources["a" := SeenNow(w.sources["a"])]), gap);
  }

  /** Whatever the interleaving of reconciles, propagation, DNS rounds and restarts: no live source ever
      loses its endpoint to a DNS round if and only if no pass trusts a deadline that a failed update left
      unwritten, and the gap between visible reconciles is within the protection of one reconcile. */
  lemma LeaseSafetyIff(gap: nat, dmin: int, losses: Losses)
    ensures Safe(gap, dmin, losses) <==> losses != Trusted && gap <= Protection(dmin, losses)
  {
    if losses == Trusted {
      UnwrittenDeadlineTrusted(gap, dmin);
    } else if gap <= Protection(dmin, losses) {
      forall states: seq<State>, steps: seq<Step>, id: string |
        IsRun(losses, dmin, states, steps) && Live(states[|steps|], id, gap)
        ensures !Deletes(states[|steps|], id)
      {
        NeverDeletesLive(losses, dmin, states, steps, id, gap);
      }
    } else if gap > dmin - (SECOND - 1) {
      RoundedDeadlineTooEarly(gap, dmin, losses);
    } else if losses == Never {
      LazyRenewalTooLate(gap, dmin, losses);
    } else {
      LateWriteTooEarly(gap, dmin);
    }
  }

  /** A period of 60 s that starts anew after each pass, with a delay for the pass itself and for its effect
      to become visible: safe exactly if the delay is at most 60 s + 1 ns and the shortest interval exceeds
      61 s - 1 ns by the delay. */
  lemma PeriodWithDelayIff(delay: nat, dmin: int)
    ensures Safe(60_000_000_000 + delay, dmin, Never) <==>
            delay <= 60_000_000_001 && dmin >= 60_999_999_999 + delay
  {
    LeaseSafetyIff(60 * SECOND + delay, dmin, Never);
  }

  // ---- what single steps do ----

  /** A clean-up removes exactly the picked endpoints that the DNS controller sees expired, and none within three
      minutes of its start; it touches nothing else. */
  lemma CleanUpRule(s: State, ids: set<string>, id: string)
    requires id in s.sources
    ensures var t, src := Apply(s, CleanUp(ids)), s.sources[id];
            && t.now == s.now && t.started == s.started && t.sources.Keys == s.sources.Keys
            && t.sources[id].(stored := src.stored) == src
            && (if && id in ids && s.now >= s.started + 180 * SECOND
                   && src.seen.Present? && src.seen.deadline.Some? && src.seen.deadline.value < s.now
                then t.sources[id].stored == Absent else t.sources[id].stored == src.stored)
  {
  }

  lemma {:induction false} TimePasses(losses: Losses, dmin: int, states: seq<State>, steps: seq<Step>, i: nat, j: nat)
    requires IsRun(losses, dmin, states, steps) && i <= j <= |steps|
    ensures states[i].now <= states[j].now && states[i].sources.Keys == states[j].sources.Keys
    ensures states[j].started >= states[i].started || states[j].started >= states[i].now
  {
    if i < j {
      TimePasses(losses, dmin, states, steps, i, j - 1);
    }
  }

  /** In every run, no clean-up within three minutes after a restart of the DNS controller removes anything. */
  lemma RestartProtects(losses: Losses, dmin: int, states: seq<State>, steps: seq<Step>, i: nat, j: nat, id: string)
    requires IsRun(losses, dmin, states, steps) && i < j < |steps| && id in states[j].sources
    requires steps[i].Restart? && steps[j].CleanUp? && states[j].now < states[i].now + 180 * SECOND
    ensures id in states[j + 1].sources && states[j + 1].sources[id].stored == states[j].sources[id].stored
  {
    assert states[i + 1] == Apply(states[i], steps[i]) && states[j + 1] == Apply(states[j], steps[j]);
    TimePasses(losses, dmin, states, steps, i + 1, j);
    CleanUpRule(states[j], steps[j].ids, id);
  }

  /** An accurate, accepted pass leaves no deadline exactly if no interval is set or it is zero. */
  lemma NoDeadlineIff(src: Tracked, interval: Option<int>, touched: bool, now: int)
    requires src.mine == src.stored
    ensures var t := AfterPass(src, interval, touched, true, now);
            t.stored.Present? && (t.stored.deadline == None <==> interval == None || interval == Some(0))
  {
  }

  // ---- dead sources ----

  predicate AtMost(step: Step, dmax: int) {
    step.Pass? && Limited(step.interval) ==> step.interval.value <= dmax
  }

  predicate CopyBounded(c: Copy, at: Option<int>, begin: int, now: int, dmax: int) {
    var last := if at.Some? then at.value else begin;
    begin <= last <= now && (DeadlineOf(c).Some? ==> DeadlineOf(c).value <= last + dmax)
  }

  predicate Bounded(src: Tracked, begin: int, now: int, dmax: int) {
    && CopyBounded(src.stored, src.renewedAt, begin, now, dmax)
    && CopyBounded(src.seen, src.seenAt, begin, now, dmax)
    && (DeadlineOf(src.mine).Some? ==> DeadlineOf(src.mine).value <= now + dmax)
  }

  predicate AllBounded(s: State, begin: int, dmax: int) {
    forall id :: id in s.sources ==> Bounded(s.sources[id], begin, s.now, dmax)
  }

  lemma PassBounded(src: Tracked, interval: Option<int>, touched: bool, ok: bool, begin: int, now: int, dmax: int)
    requires Bounded(src, begin, now, dmax) && (Limited(interval) ==> interval.value <= dmax)
    ensures Bounded(AfterPass(src, interval, touched, ok, now), begin, now, dmax)
  {
  }

  lemma StepBounded(s: State, step: Step, begin: int, dmax: int)
    requires AllBounded(s, begin, dmax) && AtMost(step, dmax)
    ensures AllBounded(Apply(s, step), begin, dmax)
  {
    if step.Pass? && step.id in s.sources {
      PassBounded(s.sources[step.id], step.interval, step.touched, step.ok, begin, s.now, dmax);
    }
  }

  lemma {:induction false} BoundedAlways(dmin: int, dmax: int, states: seq<State>, steps: seq<Step>, n: nat)
    requires IsRun(Trusted, dmin, states, steps) && n <= |steps|
    requires AllBounded(states[0], states[0].now, dmax) && forall i :: 0 <= i < |steps| ==> AtMost(steps[i], dmax)
    ensures AllBounded(states[n], states[0].now, dmax)
  {
    if n > 0 {
      BoundedAlways(dmin, dmax, states, steps, n - 1);
      StepBounded(states[n - 1], steps[n - 1], states[0].now, dmax);
    }
  }

  /** At the end of the history the start-up grace is over, and the longest interval has passed since the last
      reconcile of this source that the DNS controller has seen, or since the beginning if it has seen none. */
  predicate SilentFor(states: seq<State>, id: string, dmax: int)
    requires states != []
  {
    var t := states[|states| - 1];
    && id in t.sources && t.sources[id].seen.Present?
    && !InGrace(t.now, t.started)
    && t.now > (if t.sources[id].seenAt.Some? then t.sources[id].seenAt.value else states[0].now) + dmax
  }

  /** A source that stops drops out, whatever fails: its endpoint is then past its deadline, if it carries one. */
  lemma DeadSourceDropsOutIff(dmin: int, dmax: int, states: seq<State>, steps: seq<Step>, id: string)
    requires IsRun(Trusted, dmin, states, steps)
    requires AllBounded(states[0], states[0].now, dmax) && forall i :: 0 <= i < |steps| ==> AtMost(steps[i], dmax)
    requires SilentFor(states, id, dmax)
    ensures Deletes(states[|steps|], id) <==> states[|steps|].sources[id].seen.deadline.Some?
  {
    BoundedAlways(dmin, dmax, states, steps, |steps|);
  }
}
