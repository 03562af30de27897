/** The watch object that runs one DNS round. Health checks arrive as one answer per target position,
    the check of the DNS name as a single bool, and `note` is the text announcing a replacement. */
module Watch {
  import opened Api
  import opened Selection
  import opened Feedback
  import opened Round

  class WatchRequest {
    const singleton: bool
    const dnslb: Versioned<LbStatus>
    const copies: Endpoints
    const current: set<string>
    var targets: seq<Target>
    var updated: set<string>

    constructor (singleton: bool, dnslb: Versioned<LbStatus>, copies: Endpoints, current: set<string>)
      ensures this.singleton == singleton && this.dnslb == dnslb && this.copies == copies && this.current == current
      ensures targets == []
    {
      this.singleton, this.dnslb, this.copies, this.current := singleton, dnslb, copies, current;
      targets, updated := [], {};
    }

    ghost function Input(dnsHealthy: bool, health: seq<bool>, callbacks: seq<Callback>): RoundInput
      requires |health| == |targets|
      reads this
    {
      RoundInput(singleton, Probed(targets, health), dnsHealthy, callbacks)
    }

    method Check(target: Target) returns (active: bool)
      ensures active <==> {target.GetHostName()} == current
    {
      var hosts := {};
      hosts := hosts + {target.GetHostName()};
      active := hosts == current;
    }

    method Apply(ts: seq<Target>) returns (mod: bool)
      modifies this`updated
      ensures updated == Hosts(ts)
      ensures mod <==> Hosts(ts) != current
    {
      var hosts := {};
      for i := 0 to |ts|
        invariant hosts == Hosts(ts[..i])
      {
        assert ts[..i + 1] == ts[..i] + [ts[i]];
        hosts := hosts + {ts[i].GetHostName()};
      }
      assert ts[..|ts|] == ts;
      updated := hosts;
      mod := hosts != current;
    }

    /** Exclusive mode: stay with what DNS says while it is healthy, else take the first healthy target. */
    method SelectOne(done: DNSDone, health: seq<bool>) returns (healthyTargets: seq<Target>)
      requires |health| == |targets|
      requires done.View() == Probing(true, [], done.ishealthy) && !done.done
      modifies done
      ensures healthyTargets == Selected(true, Probed(targets, health), current)
      ensures done.View() == Gathered(true, Probed(targets, health), current, old(done.ishealthy)) && !done.done
    {
      ghost var ps := Probed(targets, health);
      healthyTargets := [];
      for i := 0 to |targets|
        invariant healthyTargets == Selected(true, ps[..i], current)
        invariant done.View() == Probing(true, ps[..i], old(done.ishealthy)) && !done.done
      {
        assert ps[..i + 1][..i] == ps[..i] && ps[..i + 1][i] == ps[i];
        var target := targets[i];
        var active := Check(target);
        if health[i] {
          if |healthyTargets| == 0 {
            healthyTargets := [target];
          }
          done.AddHealthyTarget(target);
          if active {
            healthyTargets := healthyTargets[0 := target];
          }
        } else {
          done.AddUnhealthyTarget(target);
        }
      }
      assert ps[..|ps|] == ps;
      if |healthyTargets| != 0 {
        done.AddActiveTarget(healthyTargets[0]);
      }
    }

    /** Balanced mode: take every healthy target. */
    method SelectAll(done: DNSDone, health: seq<bool>) returns (healthyTargets: seq<Target>)
      requires |health| == |targets|
      requires done.View() == Probing(false, [], done.ishealthy) && !done.done
      modifies done
      ensures healthyTargets == Selected(false, Probed(targets, health), current)
      ensures done.View() == Gathered(false, Probed(targets, health), current, old(done.ishealthy)) && !done.done
    {
      ghost var ps := Probed(targets, health);
      healthyTargets := [];
      for i := 0 to |targets|
        invariant healthyTargets == HealthyTargets(ps[..i])
        invariant done.View() == Probing(false, ps[..i], old(done.ishealthy)) && !done.done
      {
        assert ps[..i + 1][..i] == ps[..i] && ps[..i + 1][i] == ps[i];
        var target := targets[i];
        if health[i] {
          done.AddActiveTarget(target);
          done.AddHealthyTarget(target);
          healthyTargets := healthyTargets + [target];
        } else {
          done.AddUnhealthyTarget(target);
        }
      }
      assert ps[..|ps|] == ps;
    }

    method Select(done: DNSDone, health: seq<bool>) returns (healthyTargets: seq<Target>)
      requires |health| == |targets|
      requires done.View() == Collected("", 0, done.ishealthy, map[], map[], map[]) && !done.done
      modifies done
      ensures healthyTargets == Selected(singleton, Probed(targets, health), current)
      ensures done.View() == Gathered(singleton, Probed(targets, health), current, old(done.ishealthy)) && !done.done
    {
      if singleton {
        healthyTargets := SelectOne(done, health);
      } else {
        healthyTargets := SelectAll(done, health);
      }
    }

    /** Without targets the round fails at once and hands back no feedback object; otherwise it hands
        back the gathered feedback, already used up if nothing was healthy and nothing to withdraw. */
    method Handle(api: ApiServer, dnsHealthy: bool, health: seq<bool>, note: string)
      returns (hosts: set<string>, feedback: DNSDone?)
      requires |health| == |targets|
      modifies this`updated, api
      ensures hosts == Updated(Input(dnsHealthy, health, []), current)
      ensures feedback == null <==> targets == []
      ensures feedback == null ==>
                api.store == ErrorReport(old(api.store), NOTHING_GATHERED, dnslb, true, NO_ENDPOINTS)
      ensures feedback != null ==>
                var inp := Input(dnsHealthy, health, []);
                && fresh(feedback) && feedback.Valid() && feedback.api == api && feedback.dnslb == dnslb
                && feedback.copies == copies
                && feedback.View() == Handled(inp, current, note)
                && feedback.done == FailsInside(inp, current)
                && api.store == if feedback.done
                                then ErrorReport(old(api.store), Handled(inp, current, note), dnslb, false, NO_HEALTHY)
                                else old(api.store)
    {
      var done := new DNSDone(api, dnslb, copies);
      if |targets| == 0 {
        done.Error(true, NO_ENDPOINTS);
        return {}, null;
      }
      done.SetHealthy(dnsHealthy);
      var healthyTargets := Select(done, health);
      GatheredKeyed(singleton, Probed(targets, health), current, dnsHealthy);
      var mod := Apply(healthyTargets);
      if mod {
        done.SetMessage(note);
      } else if !done.HasHealthy() {
        done.Deliver(Failed(NO_HEALTHY));
      }
      return updated, done;
    }

    /** A whole round: `Handle`, then the callbacks of the surrounding DNS source reconciler. */
    method RunRound(api: ApiServer, dnsHealthy: bool, health: seq<bool>, note: string, callbacks: seq<Callback>)
      returns (hosts: set<string>)
      requires |health| == |targets|
      modifies this`updated, api
      ensures hosts == Updated(Input(dnsHealthy, health, callbacks), current)
      ensures api.store
              == RoundEffect(Input(dnsHealthy, health, callbacks), current, note, old(api.store), dnslb, copies)
    {
      var feedback;
      hosts, feedback := Handle(api, dnsHealthy, health, note);
      if feedback != null {
        feedback.DeliverAll(callbacks);
      }
    }
  }
}
