/** Which targets one DNS round selects, as plain functions of the probed targets and the hosts
    published so far, and what the selection promises over whole runs. */
module Selection {
  import opened Api

  datatype Target = Target(name: string, ipAddress: string, dnsep: Option<EndpointRef>) {
    function GetHostName(): string {
      if name != "" then name else ipAddress
    }

    predicate IsValid() {
      name != "" || ipAddress != ""
    }
  }

  /** A target together with the answer of its health check. */
  datatype Probe = Probe(target: Target, healthy: bool) {
    function Host(): string {
      target.GetHostName()
    }
  }

  function Probed(targets: seq<Target>, health: seq<bool>): (ps: seq<Probe>)
    requires |targets| == |health|
    ensures |ps| == |targets|
  {
    seq(|targets|, i requires 0 <= i < |targets| => Probe(targets[i], health[i]))
  }

  function Hosts(ts: seq<Target>): set<string> {
    set t | t in ts :: t.GetHostName()
  }

  predicate Matches(p: Probe, current: set<string>) {
    p.healthy && {p.Host()} == current
  }

  function HealthyTargets(ps: seq<Probe>): seq<Target> {
    if ps == [] then []
    else
      var p := ps[|ps| - 1];
      HealthyTargets(ps[..|ps| - 1]) + if p.healthy then [p.target] else []
  }

  function FirstHealthy(ps: seq<Probe>): Option<Target> {
    var hs := HealthyTargets(ps);
    if hs == [] then None else Some(hs[0])
  }

  function LastMatch(ps: seq<Probe>, current: set<string>): Option<Target> {
    if ps == [] then None
    else if Matches(ps[|ps| - 1], current) then Some(ps[|ps| - 1].target)
    else LastMatch(ps[..|ps| - 1], current)
  }

  /** Exclusive mode: the last healthy target that is what DNS already says, else the first healthy one. */
  function Choice(ps: seq<Probe>, current: set<string>): Option<Target> {
    if LastMatch(ps, current).Some? then LastMatch(ps, current) else FirstHealthy(ps)
  }

  function Selected(singleton: bool, ps: seq<Probe>, current: set<string>): seq<Target> {
    if !singleton then HealthyTargets(ps)
    else if Choice(ps, current).Some? then [Choice(ps, current).value]
    else []
  }

  function Published(singleton: bool, ps: seq<Probe>, current: set<string>): set<string> {
    Hosts(Selected(singleton, ps, current))
  }

  ghost predicate AnyHealthy(ps: seq<Probe>) {
    exists p :: p in ps && p.healthy
  }

  ghost predicate HealthyAt(ps: seq<Probe>, host: string) {
    exists p :: p in ps && p.healthy && p.Host() == host
  }

  // ---- what the recursive definitions mean, by position ----

  lemma {:induction false} HealthyTargetsMeaning(ps: seq<Probe>)
    ensures forall t :: t in HealthyTargets(ps) <==> Probe(t, true) in ps
    ensures HealthyTargets(ps) == [] <==> !AnyHealthy(ps)
  {
    if ps == [] {
    } else {
      var rest, p := ps[..|ps| - 1], ps[|ps| - 1];
      assert ps == rest + [p];
      HealthyTargetsMeaning(rest);
      assert p.healthy ==> p == Probe(p.target, true);
    }
    assert forall p :: p in ps && p.healthy ==> p == Probe(p.target, true);
    assert AnyHealthy(ps) ==> exists t :: Probe(t, true) in ps;
    assert HealthyTargets(ps) != [] ==> HealthyTargets(ps)[0] in HealthyTargets(ps);
  }

  lemma {:induction false} FirstHealthyPosition(ps: seq<Probe>)
    requires AnyHealthy(ps)
    ensures exists i :: 0 <= i < |ps| && ps[i].healthy && FirstHealthy(ps) == Some(ps[i].target)
                        && forall j :: 0 <= j < i ==> !ps[j].healthy
  {
    var rest, p := ps[..|ps| - 1], ps[|ps| - 1];
    assert ps == rest + [p];
    HealthyTargetsMeaning(ps);
    HealthyTargetsMeaning(rest);
    if AnyHealthy(rest) {
      FirstHealthyPosition(rest);
      var i :| 0 <= i < |rest| && rest[i].healthy && FirstHealthy(rest) == Some(rest[i].target)
               && forall j :: 0 <= j < i ==> !rest[j].healthy;
      assert ps[i] == rest[i];
      assert forall j :: 0 <= j < i ==> ps[j] == rest[j];
    } else {
      assert HealthyTargets(rest) == [];
      assert forall j :: 0 <= j < |rest| ==> ps[j] == rest[j] && rest[j] in rest;
    }
  }

  lemma {:induction false} LastMatchPosition(ps: seq<Probe>, current: set<string>)
    ensures LastMatch(ps, current).None? <==> forall i :: 0 <= i < |ps| ==> !Matches(ps[i], current)
    ensures LastMatch(ps, current).Some? ==>
              exists i :: 0 <= i < |ps| && Matches(ps[i], current) && LastMatch(ps, current) == Some(ps[i].target)
                          && forall j :: i < j < |ps| ==> !Matches(ps[j], current)
  {
    if ps != [] && !Matches(ps[|ps| - 1], current) {
      var rest := ps[..|ps| - 1];
      LastMatchPosition(rest, current);
      assert forall i :: 0 <= i < |rest| ==> rest[i] == ps[i];
      if LastMatch(rest, current).Some? {
        var i :| 0 <= i < |rest| && Matches(rest[i], current) && LastMatch(rest, current) == Some(rest[i].target)
                 && forall j :: i < j < |rest| ==> !Matches(rest[j], current);
        assert Matches(ps[i], current);
      }
    }
  }

  /** The rule for Exclusive mode, stated by position only. */
  lemma ChoiceRule(ps: seq<Probe>, current: set<string>)
    ensures Choice(ps, current).None? <==> !AnyHealthy(ps)
    ensures Choice(ps, current).Some? ==>
              exists i :: 0 <= i < |ps| && ps[i].healthy && Choice(ps, current) == Some(ps[i].target) &&
                          if exists k :: 0 <= k < |ps| && Matches(ps[k], current)
                          then Matches(ps[i], current) && forall j :: i < j < |ps| ==> !Matches(ps[j], current)
                          else forall j :: 0 <= j < i ==> !ps[j].healthy
  {
    LastMatchPosition(ps, current);
    HealthyTargetsMeaning(ps);
    if LastMatch(ps, current).Some? {
      var i :| 0 <= i < |ps| && Matches(ps[i], current) && LastMatch(ps, current) == Some(ps[i].target)
               && forall j :: i < j < |ps| ==> !Matches(ps[j], current);
      assert ps[i] in ps;
    } else if AnyHealthy(ps) {
      FirstHealthyPosition(ps);
    }
  }

  lemma PublishedBalanced(ps: seq<Probe>, current: set<string>)
    ensures forall h :: h in Published(false, ps, current) <==> HealthyAt(ps, h)
  {
    HealthyTargetsMeaning(ps);
    forall h ensures h in Published(false, ps, current) <==> HealthyAt(ps, h) {
      if h in Published(false, ps, current) {
        var t :| t in HealthyTargets(ps) && t.GetHostName() == h;
        assert Probe(t, true) in ps;
      }
      if HealthyAt(ps, h) {
        var p :| p in ps && p.healthy && p.Host() == h;
        assert p == Probe(p.target, true);
        assert p.target in HealthyTargets(ps);
      }
    }
  }

  /** Exclusive mode keeps a healthy current host, and otherwise publishes the first healthy one. */
  lemma PublishedExclusive(ps: seq<Probe>, current: set<string>)
    ensures (exists h :: current == {h} && HealthyAt(ps, h)) ==> Published(true, ps, current) == current
    ensures !(exists h :: current == {h} && HealthyAt(ps, h)) ==>
              Published(true, ps, current) ==
              if FirstHealthy(ps).Some? then {FirstHealthy(ps).value.GetHostName()} else {}
    ensures Published(true, ps, current) != {} <==> AnyHealthy(ps)
    ensures forall h :: h in Published(true, ps, current) ==> HealthyAt(ps, h) && Published(true, ps, current) == {h}
  {
    ChoiceRule(ps, current);
    LastMatchPosition(ps, current);
    var c := Choice(ps, current);
    if exists h :: current == {h} && HealthyAt(ps, h) {
      var h :| current == {h} && HealthyAt(ps, h);
      var p :| p in ps && p.healthy && p.Host() == h;
      var k :| 0 <= k < |ps| && ps[k] == p;
      assert Matches(ps[k], current);
    } else {
      forall i | 0 <= i < |ps| ensures !Matches(ps[i], current) {
        assert ps[i].healthy ==> HealthyAt(ps, ps[i].Host());
      }
    }
    if c.Some? {
      assert Published(true, ps, current) == {c.value.GetHostName()};
      assert HealthyAt(ps, c.value.GetHostName());
    }
  }

  // ---- order independence ----

  ghost predicate SameUnderReordering(singleton: bool, ps: seq<Probe>, current: set<string>) {
    forall qs: seq<Probe> :: multiset(qs) == multiset(ps) ==>
                               Published(singleton, qs, current) == Published(singleton, ps, current)
  }

  lemma SameMembers(ps: seq<Probe>, qs: seq<Probe>)
    requires multiset(qs) == multiset(ps)
    ensures forall p :: p in ps <==> p in qs
  {
    assert forall p :: p in ps <==> p in multiset(ps);
    assert forall p :: p in qs <==> p in multiset(qs);
  }

  /** Balanced mode never depends on the order in which the targets are listed. */
  lemma BalancedIgnoresOrder(ps: seq<Probe>, current: set<string>)
    ensures SameUnderReordering(false, ps, current)
  {
    forall qs: seq<Probe> | multiset(qs) == multiset(ps)
      ensures Published(false, qs, current) == Published(false, ps, current)
    {
      SameMembers(ps, qs);
      PublishedBalanced(ps, current);
      PublishedBalanced(qs, current);
      assert forall h :: HealthyAt(ps, h) <==> HealthyAt(qs, h);
    }
  }

  /** Exclusive mode is independent of the order exactly when DNS already names one host with a
      healthy target, or all healthy targets share one host. */
  lemma ExclusiveIgnoresOrderIff(ps: seq<Probe>, current: set<string>)
    ensures SameUnderReordering(true, ps, current) <==>
            ((exists h :: current == {h} && HealthyAt(ps, h))
             || forall p, q :: p in ps && q in ps && p.healthy && q.healthy ==> p.Host() == q.Host())
  {
    var sticky := exists h :: current == {h} && HealthyAt(ps, h);
    var oneHost := forall p, q :: p in ps && q in ps && p.healthy && q.healthy ==> p.Host() == q.Host();
    if sticky || oneHost {
      forall qs: seq<Probe> | multiset(qs) == multiset(ps)
        ensures Published(true, qs, current) == Published(true, ps, current)
      {
        SameMembers(ps, qs);
        assert forall h :: HealthyAt(ps, h) <==> HealthyAt(qs, h);
        assert AnyHealthy(ps) <==> AnyHealthy(qs);
        PublishedExclusive(ps, current);
        PublishedExclusive(qs, current);
        SamePublishedHost(ps, qs, current);
      }
    } else {
      var a, b :| a in ps && b in ps && a.healthy && b.healthy && a.Host() != b.Host();
      var p := if Published(true, ps, current) == {a.Host()} then b else a;
      var i :| 0 <= i < |ps| && ps[i] == p;
      MoveToFront(ps, i, current);
    }
  }

  lemma SamePublishedHost(ps: seq<Probe>, qs: seq<Probe>, current: set<string>)
    requires forall p :: p in ps <==> p in qs
    requires AnyHealthy(ps) <==> AnyHealthy(qs)
    requires (exists h :: current == {h} && HealthyAt(ps, h))
             || forall p, q :: p in ps && q in ps && p.healthy && q.healthy ==> p.Host() == q.Host()
    ensures Published(true, qs, current) == Published(true, ps, current)
  {
    PublishedExclusive(ps, current);
    PublishedExclusive(qs, current);
    assert forall h :: HealthyAt(ps, h) <==> HealthyAt(qs, h);
    if AnyHealthy(ps) {
      var g :| g in Published(true, ps, current);
      var h :| h in Published(true, qs, current);
      assert HealthyAt(ps, g) && HealthyAt(ps, h);
    }
  }

  lemma MoveToFront(ps: seq<Probe>, i: nat, current: set<string>)
    requires i < |ps| && ps[i].healthy
    requires !exists h :: current == {h} && HealthyAt(ps, h)
    ensures var qs := [ps[i]] + ps[..i] + ps[i + 1..];
            multiset(qs) == multiset(ps) && Published(true, qs, current) == {ps[i].Host()}
  {
    var qs := [ps[i]] + ps[..i] + ps[i + 1..];
    assert ps == ps[..i] + [ps[i]] + ps[i + 1..];
    assert multiset(qs) == multiset(ps);
    SameMembers(ps, qs);
    assert forall h :: HealthyAt(ps, h) <==> HealthyAt(qs, h);
    assert qs[0] in qs;
    FirstHealthyPosition(qs);
    PublishedExclusive(qs, current);
  }

  // ---- stickiness over whole runs ----

  /** What is published after n Exclusive rounds, each fed with what the one before published. */
  function PublishedAfter(rounds: seq<seq<Probe>>, current: set<string>, n: nat): set<string>
    requires n <= |rounds|
  {
    if n == 0 then current else Published(true, rounds[n - 1], PublishedAfter(rounds, current, n - 1))
  }

  lemma KeepsHost(ps: seq<Probe>, h: string)
    ensures Published(true, ps, {h}) == {h} <==> HealthyAt(ps, h)
  {
    PublishedExclusive(ps, {h});
    assert h in {h};
  }

  ghost predicate KeepsPublishing(rounds: seq<seq<Probe>>, current: set<string>, h: string, n: nat)
    requires n <= |rounds|
  {
    forall m :: 0 <= m <= n ==> PublishedAfter(rounds, current, m) == {h}
  }

  ghost predicate AlwaysHealthy(rounds: seq<seq<Probe>>, h: string, n: nat)
    requires n <= |rounds|
  {
    forall m :: 0 <= m < n ==> HealthyAt(rounds[m], h)
  }

  /** Once exactly {h} is published, it stays published through the next n rounds if and only if
      each of them still finds a healthy target for h: nothing else replaces a host. */
  lemma {:induction false} Sticky(rounds: seq<seq<Probe>>, current: set<string>, h: string, n: nat)
    requires current == {h} && n <= |rounds|
    ensures KeepsPublishing(rounds, current, h, n) <==> AlwaysHealthy(rounds, h, n)
  {
    if n > 0 {
      Sticky(rounds, current, h, n - 1);
      KeepsHost(rounds[n - 1], h);
      assert KeepsPublishing(rounds, current, h, n) <==>
             KeepsPublishing(rounds, current, h, n - 1) && PublishedAfter(rounds, current, n) == {h};
      if KeepsPublishing(rounds, current, h, n - 1) {
        assert PublishedAfter(rounds, current, n - 1) == {h};
      }
    }
  }
}
