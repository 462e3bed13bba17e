// client.go and main.go: gates pile up samples and sync them with guard-service over a
// network that may lose or delay requests and replies. A sync is three steps: the gate
// marshals its pile, the service merges it before it replies, the gate clears its pile.
// Several syncs of one gate may be under way.
module GateSync {
  import opened Bits
  import S = Services

  const PILE_LIMIT := 1000

  // Samples are numbered in the order they are accepted.
  // waiting holds the requests whose replies the gate waits for.
  datatype Gate = Gate(pile: seq<nat>, waiting: set<nat>)

  datatype Request = Request(samples: seq<nat>, processed: bool)

  // record is the service's record of these gates. merged and lost are history: everything
  // merged at the service, and the samples that a gate cleared before they were merged.
  datatype State = State(
    gates: seq<Gate>,
    requests: seq<Request>,
    record: S.Record,
    next: nat,
    merged: multiset<nat>,
    lost: set<nat>)

  datatype Event =
    | AddToPile(g: nat)                    // a sample arrives at a gate
    | Start(g: nat)                        // syncWithService marshals the pile and sends it
    | Process(k: nat, c: S.Readings)       // processSync handles request k
    | Reply(g: nat, k: nat)                // the reply to request k arrives, the gate clears its pile
    | GiveUp(g: nat, k: nat)               // an error or no reply, the gate keeps its pile

  predicate Enabled(s: State, e: Event) {
    match e
    case AddToPile(g) => g < |s.gates|
    case Start(g) => g < |s.gates|
    case Process(k, c) => k < |s.requests| && !s.requests[k].processed
    case Reply(g, k) => g < |s.gates| && k in s.gates[g].waiting && k < |s.requests| && s.requests[k].processed
    case GiveUp(g, k) => g < |s.gates| && k in s.gates[g].waiting
  }

  // The samples of the pile that were not merged yet.
  function Unmerged(s: State, g: nat): set<nat>
    requires g < |s.gates|
  {
    set x | x in s.gates[g].pile && x !in s.merged
  }

  function Next(s: State, e: Event): State
    requires Enabled(s, e)
  {
    match e
    case AddToPile(g) =>
      if |s.gates[g].pile| < 2 * PILE_LIMIT then
        s.(gates := s.gates[g := s.gates[g].(pile := s.gates[g].pile + [s.next])], next := s.next + 1)
      else s
    case Start(g) =>
      s.(gates := s.gates[g := s.gates[g].(waiting := s.gates[g].waiting + {|s.requests|})],
         requests := s.requests + [Request(s.gates[g].pile, false)])
    case Process(k, c) =>
      var r := s.requests[k];
      s.(requests := s.requests[k := r.(processed := true)],
         record := S.MergeAndLearn(s.record, |r.samples| % UINT32_LIMIT, c),
         merged := s.merged + multiset(r.samples))
    case Reply(g, k) =>
      s.(gates := s.gates[g := Gate([], s.gates[g].waiting - {k})], lost := s.lost + Unmerged(s, g))
    case GiveUp(g, k) =>
      s.(gates := s.gates[g := s.gates[g].(waiting := s.gates[g].waiting - {k})])
  }

  // ---------- The invariant ----------

  predicate InPile(s: State, x: nat) {
    exists g :: 0 <= g < |s.gates| && x in s.gates[g].pile
  }

  // The sample is still at its gate or reached the service.
  predicate Safe(s: State, x: nat) {
    InPile(s, x) || x in s.merged
  }

  predicate GateOk(s: State, g: nat)
    requires g < |s.gates|
  {
    && |s.gates[g].pile| <= 2 * PILE_LIMIT
    && (forall x | x in s.gates[g].pile :: x < s.next && x !in s.lost)
  }

  // A request carries at most a full pile; once processed all of it is merged.
  predicate RequestOk(s: State, k: nat)
    requires k < |s.requests|
  {
    && |s.requests[k].samples| <= 2 * PILE_LIMIT
    && (forall x | x in s.requests[k].samples :: x < s.next)
    && (s.requests[k].processed ==> forall x | x in s.requests[k].samples :: x in s.merged)
  }

  // No sample is in two piles.
  predicate Disjoint(s: State) {
    forall g, h | 0 <= g < h < |s.gates| :: forall x | x in s.gates[g].pile :: x !in s.gates[h].pile
  }

  // No accepted sample is unaccounted for.
  predicate NoneMissing(s: State) {
    && (forall x | x in s.merged :: x < s.next)
    && (forall x | x in s.lost :: x < s.next)
    && (forall x: nat | x < s.next :: Safe(s, x) || x in s.lost)
  }

  // initial is the number of samples the guardian was loaded with.
  predicate RecordOk(s: State, initial: Word) {
    && S.Accounted(s.record, initial) && S.PileSmall(s.record)
    && s.record.merged == |s.merged|
  }

  predicate Inv(s: State, initial: Word) {
    && (forall g: nat | g < |s.gates| :: GateOk(s, g))
    && (forall k: nat | k < |s.requests| :: RequestOk(s, k))
    && Disjoint(s)
    && NoneMissing(s)
    && RecordOk(s, initial)
  }

  function Init(gates: nat, record: S.Record): State {
    State(seq(gates, _ => Gate([], {})), [], record, 0, multiset{}, {})
  }

  predicate FreshRecord(r: S.Record) {
    r.learned == r.merged == r.pileCount == r.learnCounter == 0 && r.numSamples <= S.NUM_SAMPLES_LIMIT
  }

  // A gate keeps a sample exactly while its pile holds fewer than two thousand.
  lemma KeptExactly(s: State, g: nat)
    requires g < |s.gates|
    ensures var t, pile := Next(s, AddToPile(g)), s.gates[g].pile;
      && t.next == s.next + (if |pile| < 2000 then 1 else 0)
      && t.gates == s.gates[g := Gate(if |pile| < 2000 then pile + [s.next] else pile, s.gates[g].waiting)]
      && t.requests == s.requests && t.record == s.record && t.merged == s.merged && t.lost == s.lost
  {
  }

  lemma InitInv(gates: nat, record: S.Record)
    requires FreshRecord(record)
    ensures Inv(Init(gates, record), record.numSamples)
  {
  }

  // A step that changes one pile and nothing that was merged keeps what is safe elsewhere.
  lemma StillInPile(s: State, t: State, g: nat, x: nat)
    requires |t.gates| == |s.gates| && InPile(s, x)
    requires forall h | 0 <= h < |s.gates| && h != g :: t.gates[h].pile == s.gates[h].pile
    requires g < |s.gates| ==> x in s.gates[g].pile ==> x in t.gates[g].pile
    ensures InPile(t, x)
  {
    var h :| 0 <= h < |s.gates| && x in s.gates[h].pile;
    assert x in t.gates[h].pile;
  }

  lemma AddInv(s: State, initial: Word, g: nat)
    requires Inv(s, initial) && Enabled(s, AddToPile(g))
    ensures Inv(Next(s, AddToPile(g)), initial)
  {
    hide RecordOk;
    var t := Next(s, AddToPile(g));
    if t != s {
      forall h: nat | h < |t.gates| ensures GateOk(t, h) { assert GateOk(s, h); }
      forall k: nat | k < |t.requests| ensures RequestOk(t, k) { assert RequestOk(s, k); }
      forall a, b | 0 <= a < b < |t.gates| ensures forall x | x in t.gates[a].pile :: x !in t.gates[b].pile {
        assert GateOk(s, a) && GateOk(s, b);
      }
      forall x: nat | x < t.next ensures Safe(t, x) || x in t.lost {
        if x == s.next {
          assert x in t.gates[g].pile;
        } else if InPile(s, x) {
          StillInPile(s, t, g, x);
        }
      }
      assert RecordOk(t, initial) by { SameRecord(s, t, initial); }
    }
  }

  lemma SameRecord(s: State, t: State, initial: Word)
    requires RecordOk(s, initial) && t.record == s.record && t.merged == s.merged
    ensures RecordOk(t, initial)
  {
    hide S.Accounted, S.PileSmall;
  }

  lemma StartInv(s: State, initial: Word, g: nat)
    requires Inv(s, initial) && Enabled(s, Start(g))
    ensures Inv(Next(s, Start(g)), initial)
  {
    hide RecordOk;
    var t := Next(s, Start(g));
    assert GateOk(s, g);
    forall h: nat | h < |t.gates| ensures GateOk(t, h) { assert GateOk(s, h); }
    forall k: nat | k < |t.requests| ensures RequestOk(t, k) {
      if k < |s.requests| { assert RequestOk(s, k); }
    }
    SamePiles(s, t);
    SameRecord(s, t, initial);
  }

  lemma SamePiles(s: State, t: State)
    requires |t.gates| == |s.gates| && forall h | 0 <= h < |s.gates| :: t.gates[h].pile == s.gates[h].pile
    requires t.merged == s.merged && t.lost == s.lost && t.next == s.next
    ensures Disjoint(s) ==> Disjoint(t)
    ensures NoneMissing(s) ==> NoneMissing(t)
  {
    forall x: nat | InPile(s, x) ensures InPile(t, x) { StillInPile(s, t, |s.gates|, x); }
  }

  lemma RecordStep(r: S.Record, initial: Word, samples: seq<nat>, merged: multiset<nat>, c: S.Readings)
    requires S.Accounted(r, initial) && S.PileSmall(r) && r.merged == |merged|
    requires |samples| <= 2 * PILE_LIMIT && initial <= S.NUM_SAMPLES_LIMIT
    ensures var t := S.MergeAndLearn(r, |samples| % UINT32_LIMIT, c);
      S.Accounted(t, initial) && S.PileSmall(t) && t.merged == |merged + multiset(samples)|
  {
    hide S.Accounted, S.PileSmall, S.MergeAndLearn, S.NoWrap;
    S.GatePilesDoNotWrap(r, initial, |samples|);
    S.CallAccounts(r, initial, |samples|, c);
    ProcessCount(r, |samples|, c);
    assert |multiset(samples)| == |samples|;
  }

  lemma ProcessCount(r: S.Record, count: Word, c: S.Readings)
    ensures S.MergeAndLearn(r, count, c).merged == r.merged + count
  {
  }

  lemma ProcessInv(s: State, initial: Word, k: nat, c: S.Readings)
    requires Inv(s, initial) && Enabled(s, Process(k, c)) && initial <= S.NUM_SAMPLES_LIMIT
    ensures Inv(Next(s, Process(k, c)), initial)
  {
    var t, samples := Next(s, Process(k, c)), s.requests[k].samples;
    assert RequestOk(s, k);
    RecordStep(s.record, initial, samples, s.merged, c);
    assert RecordOk(t, initial);
    hide RecordOk, S.MergeAndLearn;
    forall h: nat | h < |t.gates| ensures GateOk(t, h) { assert GateOk(s, h); }
    forall l: nat | l < |t.requests| ensures RequestOk(t, l) { assert RequestOk(s, l); }
    forall x | x in t.merged ensures x < t.next { assert x in s.merged || x in samples; }
    forall x: nat | x < t.next ensures Safe(t, x) || x in t.lost {
      if InPile(s, x) { StillInPile(s, t, |s.gates|, x); }
    }
  }

  lemma ReplyInv(s: State, initial: Word, g: nat, k: nat)
    requires Inv(s, initial) && Enabled(s, Reply(g, k))
    ensures Inv(Next(s, Reply(g, k)), initial)
  {
    hide RecordOk;
    var t := Next(s, Reply(g, k));
    assert GateOk(s, g);
    forall h: nat | h < |t.gates| ensures GateOk(t, h) {
      assert GateOk(s, h);
      forall x | x in t.gates[h].pile ensures x !in t.lost { assert h != g; }
    }
    forall l: nat | l < |t.requests| ensures RequestOk(t, l) { assert RequestOk(s, l); }
    forall x: nat | x < t.next ensures Safe(t, x) || x in t.lost {
      assert Safe(s, x) || x in s.lost;
      if x in s.gates[g].pile {
        assert x in s.merged || x in Unmerged(s, g);
      } else if InPile(s, x) {
        StillInPile(s, t, g, x);
      }
    }
    SameRecord(s, t, initial);
  }

  lemma GiveUpInv(s: State, initial: Word, g: nat, k: nat)
    requires Inv(s, initial) && Enabled(s, GiveUp(g, k))
    ensures Inv(Next(s, GiveUp(g, k)), initial)
  {
    hide RecordOk;
    var t := Next(s, GiveUp(g, k));
    forall h: nat | h < |t.gates| ensures GateOk(t, h) { assert GateOk(s, h); }
    forall l: nat | l < |t.requests| ensures RequestOk(t, l) { assert RequestOk(s, l); }
    SamePiles(s, t);
    SameRecord(s, t, initial);
  }

  lemma StepInv(s: State, initial: Word, e: Event)
    requires Inv(s, initial) && Enabled(s, e) && initial <= S.NUM_SAMPLES_LIMIT
    ensures Inv(Next(s, e), initial)
  {
    match e
    case AddToPile(g) => AddInv(s, initial, g);
    case Start(g) => StartInv(s, initial, g);
    case Process(k, c) => ProcessInv(s, initial, k, c);
    case Reply(g, k) => ReplyInv(s, initial, g, k);
    case GiveUp(g, k) => GiveUpInv(s, initial, g, k);
  }

  // ---------- Whole runs ----------

  predicate IsRun(s: State, run: seq<Event>)
    decreases |run|
  {
    run == [] || (Enabled(s, run[0]) && IsRun(Next(s, run[0]), run[1..]))
  }

  function After(s: State, run: seq<Event>): State
    requires IsRun(s, run)
    decreases |run|
  {
    if run == [] then s else After(Next(s, run[0]), run[1..])
  }

  lemma {:induction false} RunInv(s: State, initial: Word, run: seq<Event>)
    requires Inv(s, initial) && IsRun(s, run) && initial <= S.NUM_SAMPLES_LIMIT
    ensures Inv(After(s, run), initial)
    decreases |run|
  {
    hide Inv, Enabled, Next;
    if run != [] {
      StepInv(s, initial, run[0]);
      RunInv(Next(s, run[0]), initial, run[1..]);
    }
  }

  // In every reachable state an accepted sample is at its gate or merged at the service, exactly
  // unless its gate cleared it before it was merged and no delayed request has brought it since.
  // No pile exceeds 2000 samples, and the service has learned or still holds everything merged.
  lemma DeliveryExactly(gates: nat, record: S.Record, run: seq<Event>)
    requires FreshRecord(record) && IsRun(Init(gates, record), run)
    ensures var t := After(Init(gates, record), run);
      && (forall x: nat | x < t.next :: Safe(t, x) <==> x !in t.lost || x in t.merged)
      && (forall x | x in t.lost :: x < t.next)
      && (forall g | 0 <= g < |t.gates| :: |t.gates[g].pile| <= 2000)
      && t.record.learned + t.record.pileCount == |t.merged|
  {
    InitInv(gates, record);
    RunInv(Init(gates, record), record.numSamples, run);
    var t := After(Init(gates, record), run);
    forall g | 0 <= g < |t.gates| ensures |t.gates[g].pile| <= 2000 { assert GateOk(t, g); }
    forall x: nat | x < t.next ensures Safe(t, x) <==> x !in t.lost || x in t.merged {
      if InPile(t, x) {
        var g: nat :| g < |t.gates| && x in t.gates[g].pile;
        assert GateOk(t, g);
      }
    }
  }

  // Every reply clears only samples that are merged in the end.
  predicate RepliesClearMerged(s: State, run: seq<Event>, merged: multiset<nat>)
    requires IsRun(s, run)
    decreases |run|
  {
    run == []
    || (&& (run[0].Reply? ==> forall x | x in s.gates[run[0].g].pile :: x in merged)
        && RepliesClearMerged(Next(s, run[0]), run[1..], merged))
  }

  predicate AllIn(samples: set<nat>, merged: multiset<nat>) {
    forall x | x in samples :: x in merged
  }

  lemma {:induction false} LostExactly(s: State, run: seq<Event>)
    requires IsRun(s, run)
    ensures s.merged <= After(s, run).merged
    ensures AllIn(After(s, run).lost, After(s, run).merged) <==>
            AllIn(s.lost, After(s, run).merged) && RepliesClearMerged(s, run, After(s, run).merged)
    decreases |run|
  {
    if run != [] {
      var t := Next(s, run[0]);
      LostStep(s, run[0]);
      LostExactly(t, run[1..]);
      var merged := After(s, run).merged;
      if run[0].Reply? { ClearedIn(s, run[0].g, merged); }
    }
  }

  lemma LostStep(s: State, e: Event)
    requires Enabled(s, e)
    ensures s.merged <= Next(s, e).merged
    ensures e.Reply? ==> Next(s, e).lost == s.lost + Unmerged(s, e.g)
    ensures !e.Reply? ==> Next(s, e).lost == s.lost
  {
    hide S.MergeAndLearn, Unmerged;
  }

  lemma ClearedIn(s: State, g: nat, merged: multiset<nat>)
    requires g < |s.gates| && s.merged <= merged
    ensures AllIn(Unmerged(s, g), merged) <==> forall x | x in s.gates[g].pile :: x in merged
    ensures AllIn(s.lost + Unmerged(s, g), merged) <==> AllIn(s.lost, merged) && AllIn(Unmerged(s, g), merged)
  {
    forall x | x in s.merged ensures x in merged {}
    forall x | x in s.gates[g].pile ensures x in s.merged || x in Unmerged(s, g) {}
  }

  // Over a run, no accepted sample is lost exactly when every sample that a reply clears is
  // merged by the end.
  lemma DeliveredExactly(gates: nat, record: S.Record, run: seq<Event>)
    requires FreshRecord(record) && IsRun(Init(gates, record), run)
    ensures var s := Init(gates, record);
      (forall x: nat | x < After(s, run).next :: Safe(After(s, run), x))
      <==> RepliesClearMerged(s, run, After(s, run).merged)
  {
    hide Safe;
    var s := Init(gates, record);
    DeliveryExactly(gates, record, run);
    LostExactly(s, run);
  }

  // No gate adds a sample while a sync of its own is under way.
  predicate AddsWhenIdle(s: State, run: seq<Event>)
    requires IsRun(s, run)
    decreases |run|
  {
    run == []
    || ((run[0].AddToPile? ==> s.gates[run[0].g].waiting == {}) && AddsWhenIdle(Next(s, run[0]), run[1..]))
  }

  // Every awaited request carries the whole pile.
  predicate AllSent(s: State) {
    && s.lost == {}
    && (forall g: nat, k | g < |s.gates| && k in s.gates[g].waiting :: k < |s.requests|)
    && (forall g: nat, k | g < |s.gates| && k in s.gates[g].waiting && k < |s.requests| ::
          forall x | x in s.gates[g].pile :: x in s.requests[k].samples)
  }

  lemma AllSentStep(s: State, initial: Word, e: Event)
    requires AllSent(s) && Inv(s, initial) && Enabled(s, e)
    requires e.AddToPile? ==> s.gates[e.g].waiting == {}
    ensures AllSent(Next(s, e))
  {
    hide RecordOk, NoneMissing, Disjoint, S.MergeAndLearn;
    if e.Reply? {
      assert RequestOk(s, e.k);
      assert Unmerged(s, e.g) == {};
    }
  }

  lemma {:induction false} RunAllSent(s: State, initial: Word, run: seq<Event>)
    requires AllSent(s) && Inv(s, initial) && initial <= S.NUM_SAMPLES_LIMIT && IsRun(s, run) && AddsWhenIdle(s, run)
    ensures AllSent(After(s, run))
    decreases |run|
  {
    hide AllSent, Enabled, Next, Inv;
    if run != [] {
      AllSentStep(s, initial, run[0]);
      StepInv(s, initial, run[0]);
      RunAllSent(Next(s, run[0]), initial, run[1..]);
    }
  }

  // At-least-once delivery, for gates that add no sample while they sync: whatever requests and
  // replies are lost or delayed, and however many syncs of a gate overlap, every accepted sample
  // is at its gate or merged.
  lemma AtLeastOnce(gates: nat, record: S.Record, run: seq<Event>)
    requires FreshRecord(record) && IsRun(Init(gates, record), run)
    requires AddsWhenIdle(Init(gates, record), run)
    ensures var t := After(Init(gates, record), run);
      forall x: nat | x < t.next :: Safe(t, x)
  {
    DeliveryExactly(gates, record, run);
    InitInv(gates, record);
    RunAllSent(Init(gates, record), record.numSamples, run);
  }

  // A sample added while a sync is under way is cleared with the pile and never delivered.
  lemma AddDuringSyncIsLost(record: S.Record, c: S.Readings)
    ensures var run := [Start(0), AddToPile(0), Process(0, c), Reply(0, 0)];
      IsRun(Init(1, record), run)
      && var t := After(Init(1, record), run); t.next == 1 && !Safe(t, 0)
  {
    hide S.MergeAndLearn;
    var e0, e1, e2, e3 := Start(0), AddToPile(0), Process(0, c), Reply(0, 0);
    var s0 := Init(1, record);
    assert s0.gates == [Gate([], {})];
    var s1 := Next(s0, e0);
    assert {} + {0} == {0} && s1.gates[0] == Gate([], {0});
    assert s1.requests == [Request([], false)];
    var s2 := Next(s1, e1);
    assert [] + [0] == [0] && s2.gates[0] == Gate([0], {0});
    var s3 := Next(s2, e2);
    assert s3.requests == [Request([], true)] && s3.merged == multiset{};
    var s4 := Next(s3, e3);
    assert |s4.gates| == 1 && s4.gates[0].pile == [];
    FourSteps(s0, e0, e1, e2, e3);
  }

  lemma FourSteps(s: State, a: Event, b: Event, c: Event, d: Event)
    requires Enabled(s, a) && Enabled(Next(s, a), b) && Enabled(Next(Next(s, a), b), c)
    requires Enabled(Next(Next(Next(s, a), b), c), d)
    ensures IsRun(s, [a, b, c, d])
    ensures After(s, [a, b, c, d]) == Next(Next(Next(Next(s, a), b), c), d)
  {
    hide Next, Enabled;
    var s1 := Next(s, a);
    var s2 := Next(s1, b);
    var s3 := Next(s2, c);
    var s4 := Next(s3, d);
    assert [a, b, c, d][1..] == [b, c, d] && [b, c, d][1..] == [c, d] && [c, d][1..] == [d] && [d][1..] == [];
    assert IsRun(s4, []) && After(s4, []) == s4;
    assert IsRun(s3, [d]) && After(s3, [d]) == s4;
    assert IsRun(s2, [c, d]) && After(s2, [c, d]) == s4;
    assert IsRun(s1, [b, c, d]) && After(s1, [b, c, d]) == s4;
  }
}
