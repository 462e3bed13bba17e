// client.go: the gateClient object. Its methods are steps of the machine of GateSync, taken
// here one after the other: a sync runs from marshalling to its reply without a sample or another
// sync of this gate between.
module GateClients {
  import opened Bits
  import opened Alerts
  import G = GateSync
  import S = Services

  // The service, the network and all gates, as GateSync describes them.
  class Network {
    ghost var state: G.State
    ghost const initial: Word

    ghost predicate Valid()
      reads this
    {
      G.Inv(state, initial) && initial <= S.NUM_SAMPLES_LIMIT
    }

    ghost constructor (gates: nat, record: S.Record)
      requires G.FreshRecord(record)
      ensures Valid() && state == G.Init(gates, record)
    {
      G.InitInv(gates, record);
      state, initial := G.Init(gates, record), record.numSamples;
    }

    ghost method Step(e: G.Event)
      requires Valid() && G.Enabled(state, e)
      modifies this
      ensures Valid() && state == G.Next(old(state), e)
    {
      hide G.Inv, G.Next;
      G.StepInv(state, initial, e);
      state := G.Next(state, e);
    }

    ghost method Run(events: seq<G.Event>)
      requires Valid() && G.IsRun(state, events)
      modifies this
      ensures Valid() && state == G.After(old(state), events)
    {
      hide G.Inv, G.IsRun, G.After;
      G.RunInv(state, initial, events);
      state := G.After(state, events);
    }
  }

  // How the network and the service treat one sync.
  datatype Outcome =
    | Unreachable          // the request does not arrive while the gate waits
    | ReplyLost            // the service merges the pile but no good reply arrives
    | Replied

  // The steps one sync takes, for a request with number k.
  ghost function SyncEvents(g: nat, k: nat, outcome: Outcome, c: S.Readings): seq<G.Event> {
    match outcome
    case Unreachable => [G.Start(g), G.GiveUp(g, k)]
    case ReplyLost => [G.Start(g), G.Process(k, c), G.GiveUp(g, k)]
    case Replied => [G.Start(g), G.Process(k, c), G.Reply(g, k)]
  }

  class GateClient {
    ghost const id: nat
    ghost const net: Network
    const alerts: GateAlerts
    var pileCount: nat
    var iamCompromised: bool
    var tokenRefreshTime: int

    ghost predicate Valid()
      reads this, net, alerts
    {
      && alerts.Valid() && net.Valid() && id < |net.state.gates|
      && |net.state.gates[id].pile| == pileCount
      && net.state.gates[id].waiting == {}
    }

    constructor (ghost net: Network, ghost id: nat)
      requires net.Valid() && id < |net.state.gates| && net.state.gates[id] == G.Gate([], {})
      ensures Valid() && this.net == net && this.id == id && !iamCompromised && fresh(alerts)
    {
      this.net, this.id := net, id;
      alerts := new GateAlerts();
      pileCount, iamCompromised, tokenRefreshTime := 0, false, 0;
    }

    // A full pile drops the sample.
    method AddToPile() returns (count: nat)
      requires Valid()
      modifies this`pileCount, net
      ensures Valid() && net.state == G.Next(old(net.state), G.AddToPile(id))
      ensures count == pileCount == (if old(pileCount) < 2000 then old(pileCount) + 1 else old(pileCount))
    {
      hide G.Inv;
      if pileCount < 2 * G.PILE_LIMIT {
        pileCount := pileCount + 1;
      }
      net.Step(G.AddToPile(id));
      count := pileCount;
    }

    // The pile and the alerts are cleared exactly when a good reply arrives. Nothing that was in
    // the pile is lost: after the reply all of it is merged.
    method SyncWithService(ticks: int, outcome: Outcome, ghost c: S.Readings) returns (ok: bool)
      requires Valid()
      modifies this`pileCount, this`tokenRefreshTime, net, alerts
      ensures Valid() && ok == outcome.Replied?
      ensures var events := SyncEvents(id, old(|net.state.requests|), outcome, c);
        G.IsRun(old(net.state), events) && net.state == G.After(old(net.state), events)
      ensures net.state.gates
        == old(net.state.gates)[id := G.Gate(if ok then [] else old(net.state.gates[id].pile), {})]
      ensures net.state.lost == old(net.state.lost)
      ensures !outcome.Unreachable? ==>
        net.state.merged == old(net.state.merged) + multiset(old(net.state.gates[id].pile))
      ensures if ok then alerts.alerts == [] else alerts.alerts == old(alerts.alerts)
      ensures tokenRefreshTime == if old(tokenRefreshTime) <= ticks then ticks + 300 else old(tokenRefreshTime)
    {
      hide G.Inv, G.IsRun, G.After, SyncEvents;
      if tokenRefreshTime <= ticks {
        tokenRefreshTime := ticks + 300;
      }
      SyncEffect(net.state, id, outcome, c);
      net.Run(SyncEvents(id, |net.state.requests|, outcome, c));
      alerts.Synced(outcome.Replied?);
      if outcome.Replied? {
        pileCount := 0;
      }
      ok := outcome.Replied?;
    }

    // Only the first call signals.
    method SignalCompromised(ticks: int, outcome: Outcome, ghost c: S.Readings)
      requires Valid()
      modifies this, net, alerts
      ensures Valid() && iamCompromised
      ensures old(iamCompromised) ==> net.state == old(net.state) && pileCount == old(pileCount)
      ensures !old(iamCompromised) ==>
        var events := SyncEvents(id, old(|net.state.requests|), outcome, c);
        G.IsRun(old(net.state), events) && net.state == G.After(old(net.state), events)
    {
      hide G.Inv, G.IsRun, G.After;
      if !iamCompromised {
        iamCompromised := true;
        var _ := SyncWithService(ticks, outcome, c);
      }
    }
  }

  // What the steps of one sync change.
  lemma SyncEffect(s: G.State, g: nat, outcome: Outcome, c: S.Readings)
    requires g < |s.gates| && s.gates[g].waiting == {}
    ensures var events, pile := SyncEvents(g, |s.requests|, outcome, c), s.gates[g].pile;
      && G.IsRun(s, events)
      && var t := G.After(s, events);
      && t.gates == s.gates[g := G.Gate(if outcome.Replied? then [] else pile, {})]
      && t.lost == s.lost
      && (!outcome.Unreachable? ==> t.merged == s.merged + multiset(pile))
  {
    hide S.MergeAndLearn, G.IsRun, G.After;
    var k := |s.requests|;
    var a, b := G.Start(g), G.Process(k, c);
    var s1 := G.Next(s, a);
    assert {} + {k} == {k} && {k} - {k} == {};
    if outcome.Unreachable? {
      TwoSteps(s, a, G.GiveUp(g, k));
    } else {
      var s2 := G.Next(s1, b);
      assert s2.requests[k].processed && s2.gates[g] == G.Gate(s.gates[g].pile, {k});
      if outcome.Replied? {
        assert G.Unmerged(s2, g) == {};
        ThreeSteps(s, a, b, G.Reply(g, k));
      } else {
        ThreeSteps(s, a, b, G.GiveUp(g, k));
      }
    }
  }

  lemma TwoSteps(s: G.State, a: G.Event, b: G.Event)
    requires G.Enabled(s, a) && G.Enabled(G.Next(s, a), b)
    ensures G.IsRun(s, [a, b]) && G.After(s, [a, b]) == G.Next(G.Next(s, a), b)
  {
    hide G.Next, G.Enabled;
    assert [a, b][1..] == [b] && [b][1..] == [];
    var t := G.Next(s, a);
    assert G.IsRun(G.Next(t, b), []) && G.After(G.Next(t, b), []) == G.Next(t, b);
    assert G.IsRun(t, [b]) && G.After(t, [b]) == G.Next(t, b);
  }

  lemma ThreeSteps(s: G.State, a: G.Event, b: G.Event, c: G.Event)
    requires G.Enabled(s, a) && G.Enabled(G.Next(s, a), b) && G.Enabled(G.Next(G.Next(s, a), b), c)
    ensures G.IsRun(s, [a, b, c]) && G.After(s, [a, b, c]) == G.Next(G.Next(G.Next(s, a), b), c)
  {
    hide G.Next, G.Enabled;
    TwoSteps(G.Next(s, a), b, c);
    assert [a, b, c][1..] == [b, c];
  }
}
