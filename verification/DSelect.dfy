// dselect.go: one goroutine selects over a growing and shrinking list of cases. Two slices,
// the cases and the services, are kept in step; callbacks are recorded in a log.
module DSelect {

  // A service, numbered in the order of adding.
  datatype Srv = Srv(id: nat, tickSecs: int, lastTick: int)

  datatype Case = MainDone | AddChan | TickerChan | SrvDone(id: nat)

  // A callback made by the loop.
  datatype Call = Completed(id: nat) | Ticked(id: nat, ticks: int)

  // secs is history: the tickSecs of every service ever added.
  datatype State = State(
    srvs: seq<Srv>,
    cases: seq<Case>,
    ticks: int,
    returned: bool,
    secs: seq<int>,
    log: seq<Call>)

  // reflect.Select picks a case and receives a value: the tickSecs of an added service, the
  // time of a tick, or nothing of interest.
  datatype Event = Event(chosen: nat, value: int)

  // int64 addition
  function Add64(a: int, b: int): int {
    (a + b + 0x8000_0000_0000_0000) % 0x1_0000_0000_0000_0000 - 0x8000_0000_0000_0000
  }

  const INIT := State([], [MainDone, AddChan, TickerChan], 0, false, [], [])

  predicate Enabled(s: State, e: Event) {
    !s.returned && e.chosen < |s.cases|
  }

  predicate Due(srv: Srv, now: int) {
    now > Add64(srv.lastTick, srv.tickSecs)
  }

  function TickSrvs(srvs: seq<Srv>, now: int): (r: seq<Srv>)
    ensures |r| == |srvs|
  {
    seq(|srvs|, i requires 0 <= i < |srvs| => if Due(srvs[i], now) then srvs[i].(lastTick := now) else srvs[i])
  }

  function TickCalls(srvs: seq<Srv>, now: int): seq<Call> {
    if srvs == [] then []
    else
      var n := |srvs| - 1;
      TickCalls(srvs[..n], now) + if Due(srvs[n], now) then [Ticked(srvs[n].id, now)] else []
  }

  function CompleteCalls(srvs: seq<Srv>): seq<Call> {
    if srvs == [] then [] else CompleteCalls(srvs[..|srvs| - 1]) + [Completed(srvs[|srvs| - 1].id)]
  }

  function Remove<T>(s: seq<T>, i: nat): seq<T>
    requires i < |s|
  {
    s[..i] + s[i + 1..]
  }

  function Next(s: State, e: Event): State
    requires Enabled(s, e) && |s.cases| == |s.srvs| + 3
  {
    if e.chosen == 0 then
      s.(log := s.log + CompleteCalls(s.srvs), returned := true)
    else if e.chosen == 1 then
      s.(srvs := s.srvs + [Srv(|s.secs|, e.value, 0)],
         cases := s.cases + [SrvDone(|s.secs|)],
         secs := s.secs + [e.value])
    else if e.chosen == 2 then
      s.(ticks := e.value,
         srvs := TickSrvs(s.srvs, e.value),
         log := s.log + TickCalls(s.srvs, e.value))
    else
      var index := e.chosen - 3;
      s.(log := s.log + [Completed(s.srvs[index].id)],
         srvs := Remove(s.srvs, index),
         cases := Remove(s.cases, e.chosen))
  }

  // ---------- What the log tells about one service ----------

  // How often it was completed.
  function Completions(log: seq<Call>, id: nat): nat {
    if log == [] then 0
    else Completions(log[..|log| - 1], id) + if log[|log| - 1] == Completed(id) then 1 else 0
  }

  // When it was last ticked, or 0.
  function LastTick(log: seq<Call>, id: nat): int {
    if log == [] then 0
    else
      var c := log[|log| - 1];
      if c.Ticked? && c.id == id then c.ticks else LastTick(log[..|log| - 1], id)
  }

  // Every tick came later than its period after the one before, and none after completion.
  predicate WellTicked(log: seq<Call>, id: nat, secs: int) {
    log == []
    || (var before, c := log[..|log| - 1], log[|log| - 1];
        && WellTicked(before, id, secs)
        && (c.Ticked? && c.id == id ==>
              c.ticks > Add64(LastTick(before, id), secs) && Completions(before, id) == 0))
  }

  lemma Snoc(log: seq<Call>, c: Call, id: nat, secs: int)
    ensures Completions(log + [c], id) == Completions(log, id) + if c == Completed(id) then 1 else 0
    ensures LastTick(log + [c], id) == if c.Ticked? && c.id == id then c.ticks else LastTick(log, id)
    ensures WellTicked(log + [c], id, secs) <==>
      (&& WellTicked(log, id, secs)
       && (c.Ticked? && c.id == id ==> c.ticks > Add64(LastTick(log, id), secs) && Completions(log, id) == 0))
  {
    assert (log + [c])[..|log|] == log;
  }

  // Calls about other services change nothing for this one.
  lemma {:induction false} AppendOthers(log: seq<Call>, calls: seq<Call>, id: nat, secs: int)
    requires forall c | c in calls :: c.id != id
    ensures Completions(log + calls, id) == Completions(log, id)
    ensures LastTick(log + calls, id) == LastTick(log, id)
    ensures WellTicked(log + calls, id, secs) <==> WellTicked(log, id, secs)
  {
    if calls == [] {
      assert log + calls == log;
    } else {
      var n := |calls| - 1;
      AppendOthers(log, calls[..n], id, secs);
      assert log + calls == (log + calls[..n]) + [calls[n]];
      Snoc(log + calls[..n], calls[n], id, secs);
    }
  }

  // ---------- The invariant ----------

  // Case i+3 belongs to service i.
  predicate Aligned(s: State) {
    && |s.cases| == |s.srvs| + 3
    && s.cases[0] == MainDone && s.cases[1] == AddChan && s.cases[2] == TickerChan
    && (forall i | 0 <= i < |s.srvs| :: s.cases[i + 3] == SrvDone(s.srvs[i].id))
  }

  predicate DistinctIds(srvs: seq<Srv>) {
    forall i, j | 0 <= i < j < |srvs| :: srvs[i].id != srvs[j].id
  }

  // A service in the list has not been completed; its fields agree with the log.
  predicate Running(s: State, i: nat)
    requires i < |s.srvs|
  {
    var v := s.srvs[i];
    && v.id < |s.secs|
    && v.tickSecs == s.secs[v.id]
    && v.lastTick == LastTick(s.log, v.id)
    && Completions(s.log, v.id) == if s.returned then 1 else 0
  }

  predicate Listed(srvs: seq<Srv>, id: nat) {
    exists i :: 0 <= i < |srvs| && srvs[i].id == id
  }

  // What holds of every service ever added, and of numbers not yet given out.
  predicate IdOk(s: State, id: nat) {
    && (id < |s.secs| ==> WellTicked(s.log, id, s.secs[id]))
    && (id < |s.secs| && !Listed(s.srvs, id) ==> Completions(s.log, id) == 1)
    && (id >= |s.secs| ==> Completions(s.log, id) == 0 && LastTick(s.log, id) == 0)
  }

  predicate Inv(s: State) {
    && Aligned(s)
    && DistinctIds(s.srvs)
    && (forall c | c in s.log :: c.id < |s.secs|)
    && (forall i: nat | i < |s.srvs| :: Running(s, i))
    && (forall id: nat | id < |s.secs| :: IdOk(s, id))
  }

  // ---------- Every step keeps the invariant ----------

  lemma {:induction false} CallsAbout(srvs: seq<Srv>, now: int)
    ensures forall c | c in TickCalls(srvs, now) :: c.Ticked? && c.ticks == now && Listed(srvs, c.id)
    ensures forall c | c in CompleteCalls(srvs) :: c.Completed? && Listed(srvs, c.id)
  {
    if srvs != [] {
      var n := |srvs| - 1;
      CallsAbout(srvs[..n], now);
      forall id | Listed(srvs[..n], id) ensures Listed(srvs, id) {
        var i :| 0 <= i < n && srvs[..n][i].id == id;
        assert srvs[i].id == id;
      }
      assert srvs[n].id == srvs[n].id;
    }
  }

  // One tick of the loop, seen from one service.
  lemma {:induction false} TickOne(log: seq<Call>, srvs: seq<Srv>, now: int, i: nat)
    requires i < |srvs| && DistinctIds(srvs)
    requires srvs[i].lastTick == LastTick(log, srvs[i].id) && Completions(log, srvs[i].id) == 0
    requires WellTicked(log, srvs[i].id, srvs[i].tickSecs)
    ensures var id, after := srvs[i].id, log + TickCalls(srvs, now);
      && Completions(after, id) == 0
      && LastTick(after, id) == TickSrvs(srvs, now)[i].lastTick
      && WellTicked(after, id, srvs[i].tickSecs)
  {
    hide LastTick, WellTicked, Completions;
    var n, id := |srvs| - 1, srvs[i].id;
    var first := TickCalls(srvs[..n], now);
    if i < n {
      TickOne(log, srvs[..n], now, i);
      assert TickSrvs(srvs[..n], now)[i] == TickSrvs(srvs, now)[i];
    } else {
      CallsAbout(srvs[..n], now);
      AppendOthers(log, first, id, srvs[i].tickSecs);
    }
    if Due(srvs[n], now) {
      assert log + TickCalls(srvs, now) == (log + first) + [Ticked(srvs[n].id, now)];
      Snoc(log + first, Ticked(srvs[n].id, now), id, srvs[i].tickSecs);
    } else {
      assert log + TickCalls(srvs, now) == log + first;
    }
  }

  // The final round of completions, seen from one service.
  lemma {:induction false} CompleteOne(log: seq<Call>, srvs: seq<Srv>, i: nat, secs: int)
    requires i < |srvs| && DistinctIds(srvs)
    ensures var id, after := srvs[i].id, log + CompleteCalls(srvs);
      && Completions(after, id) == Completions(log, id) + 1
      && LastTick(after, id) == LastTick(log, id)
      && (WellTicked(log, id, secs) ==> WellTicked(after, id, secs))
  {
    hide LastTick, WellTicked, Completions;
    var n, id := |srvs| - 1, srvs[i].id;
    var first := CompleteCalls(srvs[..n]);
    if i < n {
      CompleteOne(log, srvs[..n], i, secs);
    } else {
      CallsAbout(srvs[..n], 0);
      AppendOthers(log, first, id, secs);
    }
    assert log + CompleteCalls(srvs) == (log + first) + [Completed(srvs[n].id)];
    Snoc(log + first, Completed(srvs[n].id), id, secs);
  }

  lemma TickInv(s: State, e: Event)
    requires Inv(s) && Enabled(s, e) && e.chosen == 2
    ensures Inv(Next(s, e))
  {
    hide LastTick, WellTicked, Completions, Due;
    var t := Next(s, e);
    var calls := TickCalls(s.srvs, e.value);
    CallsAbout(s.srvs, e.value);
    forall i: nat | i < |t.srvs| ensures Running(t, i) {
      assert Running(s, i) && IdOk(s, s.srvs[i].id);
      TickOne(s.log, s.srvs, e.value, i);
    }
    forall id: nat | id < |t.secs| ensures IdOk(t, id) {
      assert IdOk(s, id);
      if Listed(s.srvs, id) {
        var i: nat :| i < |s.srvs| && s.srvs[i].id == id;
        assert Running(s, i);
        TickOne(s.log, s.srvs, e.value, i);
        assert t.srvs[i].id == id;
      } else {
        AppendOthers(s.log, calls, id, s.secs[id]);
        assert !Listed(t.srvs, id);
      }
    }
    forall c | c in calls ensures c.id < |s.secs| {
      var i: nat :| i < |s.srvs| && s.srvs[i].id == c.id;
      assert Running(s, i);
    }
  }

  lemma ReturnInv(s: State, e: Event)
    requires Inv(s) && Enabled(s, e) && e.chosen == 0
    ensures Inv(Next(s, e))
  {
    hide LastTick, WellTicked, Completions;
    var t := Next(s, e);
    var calls := CompleteCalls(s.srvs);
    CallsAbout(s.srvs, 0);
    forall i: nat | i < |t.srvs| ensures Running(t, i) {
      assert Running(s, i);
      CompleteOne(s.log, s.srvs, i, s.secs[s.srvs[i].id]);
    }
    forall id: nat | id < |t.secs| ensures IdOk(t, id) {
      assert IdOk(s, id);
      if Listed(s.srvs, id) {
        var i: nat :| i < |s.srvs| && s.srvs[i].id == id;
        CompleteOne(s.log, s.srvs, i, s.secs[id]);
      } else {
        AppendOthers(s.log, calls, id, s.secs[id]);
      }
    }
    forall c | c in calls ensures c.id < |s.secs| {
      var i: nat :| i < |s.srvs| && s.srvs[i].id == c.id;
      assert Running(s, i);
    }
  }

  // Calls are only about services already added.
  lemma {:induction false} Unknown(log: seq<Call>, id: nat)
    requires forall c | c in log :: c.id < id
    ensures Completions(log, id) == 0 && LastTick(log, id) == 0
    ensures forall secs :: WellTicked(log, id, secs)
  {
    assert [] + log == log;
    AppendOthers([], log, id, 0);
    forall secs ensures Completions(log, id) == 0 && LastTick(log, id) == 0 && WellTicked(log, id, secs) {
      assert [] + log == log;
      AppendOthers([], log, id, secs);
    }
  }

  lemma AddInv(s: State, e: Event)
    requires Inv(s) && Enabled(s, e) && e.chosen == 1
    ensures Inv(Next(s, e))
  {
    var t := Next(s, e);
    Unknown(s.log, |s.secs|);
    assert forall i: nat | i < |s.srvs| :: t.srvs[i] == s.srvs[i];
    forall i: nat | i < |t.srvs| ensures Running(t, i) {
      if i < |s.srvs| { assert Running(s, i); }
    }
    forall i, j | 0 <= i < j < |t.srvs| ensures t.srvs[i].id != t.srvs[j].id {
      assert Running(s, i);
    }
    forall id: nat | id < |t.secs| ensures IdOk(t, id) {
      if id < |s.secs| {
        assert IdOk(s, id);
        if Listed(s.srvs, id) {
          var i :| 0 <= i < |s.srvs| && s.srvs[i].id == id;
          assert t.srvs[i].id == id;
        }
      } else {
        assert t.srvs[|s.srvs|].id == id;
      }
    }
  }

  lemma RemoveAt<T>(s: seq<T>, i: nat, k: nat)
    requires i < |s| && k < |s| - 1
    ensures |Remove(s, i)| == |s| - 1 && Remove(s, i)[k] == if k < i then s[k] else s[k + 1]
  {
  }

  lemma RemoveAligned(s: State, e: Event)
    requires Inv(s) && Enabled(s, e) && e.chosen >= 3
    ensures var t, index := Next(s, e), e.chosen - 3;
      && Aligned(t)
      && (forall k: nat | k < |t.srvs| ::
            t.srvs[k] == s.srvs[if k < index then k else k + 1] && t.srvs[k].id != s.srvs[index].id)
  {
    hide Running, IdOk;
    var t, index := Next(s, e), e.chosen - 3;
    assert |t.srvs| == |s.srvs| - 1 && |t.cases| == |s.cases| - 1;
    forall k: nat | k < |t.srvs|
      ensures t.srvs[k] == s.srvs[if k < index then k else k + 1] && t.srvs[k].id != s.srvs[index].id
      ensures t.cases[k + 3] == SrvDone(t.srvs[k].id)
    {
      RemoveAt(s.srvs, index, k);
      RemoveAt(s.cases, e.chosen, k + 3);
    }
    RemoveAt(s.cases, e.chosen, 0);
    RemoveAt(s.cases, e.chosen, 1);
    RemoveAt(s.cases, e.chosen, 2);
  }

  lemma DoneInv(s: State, e: Event)
    requires Inv(s) && Enabled(s, e) && e.chosen >= 3
    ensures Inv(Next(s, e))
  {
    var t, index := Next(s, e), e.chosen - 3;
    RemoveAligned(s, e);
    assert t.secs == s.secs && t.log == s.log + [Completed(s.srvs[index].id)] && t.returned == s.returned;
    assert Running(s, index);
    hide Next, Aligned, Enabled, Running, IdOk;
    forall k: nat | k < |t.srvs| ensures Running(t, k) {
      DoneRunning(s, t, index, k, if k < index then k else k + 1);
    }
    forall id: nat | id < |t.secs| ensures IdOk(t, id) {
      if id != s.srvs[index].id && Listed(s.srvs, id) {
        var i: nat :| i < |s.srvs| && s.srvs[i].id == id;
        assert t.srvs[if i < index then i else i - 1].id == id;
      }
      DoneIdOk(s, t, index, id);
    }
  }

  lemma DoneRunning(s: State, t: State, index: nat, k: nat, was: nat)
    requires index < |s.srvs| && k < |t.srvs| && was < |s.srvs| && Running(s, was)
    requires t.srvs[k] == s.srvs[was] && t.srvs[k].id != s.srvs[index].id
    requires t.secs == s.secs && t.log == s.log + [Completed(s.srvs[index].id)] && t.returned == s.returned
    ensures Running(t, k)
  {
    hide LastTick, WellTicked, Completions;
    Snoc(s.log, Completed(s.srvs[index].id), t.srvs[k].id, 0);
  }

  lemma DoneIdOk(s: State, t: State, index: nat, id: nat)
    requires index < |s.srvs| && id < |s.secs| && Running(s, index) && !s.returned && IdOk(s, id)
    requires t.secs == s.secs && t.log == s.log + [Completed(s.srvs[index].id)]
    requires id != s.srvs[index].id && Listed(s.srvs, id) ==> Listed(t.srvs, id)
    requires id != s.srvs[index].id || Completions(s.log, id) == 0
    requires Listed(t.srvs, id) ==> Listed(s.srvs, id) && id != s.srvs[index].id
    ensures IdOk(t, id)
  {
    hide LastTick, WellTicked, Completions;
    Snoc(s.log, Completed(s.srvs[index].id), id, s.secs[id]);
  }

  lemma StepInv(s: State, e: Event)
    requires Inv(s) && Enabled(s, e)
    ensures Inv(Next(s, e))
  {
    if e.chosen == 0 { ReturnInv(s, e); }
    else if e.chosen == 1 { AddInv(s, e); }
    else if e.chosen == 2 { TickInv(s, e); }
    else { DoneInv(s, e); }
  }

  // ---------- Whole runs ----------

  predicate IsRun(s: State, run: seq<Event>)
    decreases |run|
  {
    run == [] || (|s.cases| == |s.srvs| + 3 && Enabled(s, run[0]) && IsRun(Next(s, run[0]), run[1..]))
  }

  function After(s: State, run: seq<Event>): State
    requires IsRun(s, run)
    decreases |run|
  {
    if run == [] then s else After(Next(s, run[0]), run[1..])
  }

  lemma {:induction false} RunInv(s: State, run: seq<Event>)
    requires Inv(s) && IsRun(s, run)
    ensures Inv(After(s, run))
    decreases |run|
  {
    hide Inv, Next, Enabled;
    if run != [] {
      StepInv(s, run[0]);
      RunInv(Next(s, run[0]), run[1..]);
    }
  }

  // In every reachable state case i+3 belongs to service i; a service is completed at most
  // once, and exactly once when it left the list or the loop has returned.
  lemma CompletedOnce(run: seq<Event>, id: nat)
    requires IsRun(INIT, run) && id < |After(INIT, run).secs|
    ensures var t := After(INIT, run);
      && Aligned(t)
      && Completions(t.log, id) == (if t.returned || !Listed(t.srvs, id) then 1 else 0)
      && WellTicked(t.log, id, t.secs[id])
  {
    RunInv(INIT, run);
    var t := After(INIT, run);
    assert IdOk(t, id);
    if Listed(t.srvs, id) {
      var i: nat :| i < |t.srvs| && t.srvs[i].id == id;
      assert Running(t, i);
    }
  }

  // A service is never ticked after its completion.
  lemma {:induction false} NoTickAfterCompletion(log: seq<Call>, id: nat, secs: int, a: nat, b: nat)
    requires WellTicked(log, id, secs) && a < b < |log|
    requires log[a] == Completed(id)
    ensures !(log[b].Ticked? && log[b].id == id)
  {
    var n := |log| - 1;
    if b < n {
      NoTickAfterCompletion(log[..n], id, secs, a, b);
    } else {
      Positive(log[..n], id, a);
    }
  }

  lemma {:induction false} Positive(log: seq<Call>, id: nat, a: nat)
    requires a < |log| && log[a] == Completed(id)
    ensures Completions(log, id) > 0
  {
    if a < |log| - 1 { Positive(log[..|log| - 1], id, a); }
  }

  // Ticks a and b of a service, with none between.
  predicate Consecutive(log: seq<Call>, id: nat, a: nat, b: nat) {
    && a < b < |log|
    && log[a].Ticked? && log[a].id == id && log[b].Ticked? && log[b].id == id
    && forall k | a < k < b :: !(log[k].Ticked? && log[k].id == id)
  }

  lemma {:induction false} TicksApart(log: seq<Call>, id: nat, secs: int, a: nat, b: nat)
    requires WellTicked(log, id, secs) && Consecutive(log, id, a, b)
    ensures log[b].ticks > Add64(log[a].ticks, secs)
  {
    var n := |log| - 1;
    if b < n {
      TicksApart(log[..n], id, secs, a, b);
    } else {
      LastTickIs(log[..n], id, a);
    }
  }

  lemma {:induction false} LastTickIs(log: seq<Call>, id: nat, a: nat)
    requires a < |log| && log[a].Ticked? && log[a].id == id
    requires forall k | a < k < |log| :: !(log[k].Ticked? && log[k].id == id)
    ensures LastTick(log, id) == log[a].ticks
  {
    if a < |log| - 1 { LastTickIs(log[..|log| - 1], id, a); }
  }

  // A tick of the loop calls exactly the services that are due.
  lemma {:induction false} TickedExactlyIfDue(srvs: seq<Srv>, now: int, i: nat)
    requires i < |srvs| && DistinctIds(srvs)
    ensures Ticked(srvs[i].id, now) in TickCalls(srvs, now) <==> Due(srvs[i], now)
  {
    var n := |srvs| - 1;
    if i < n {
      TickedExactlyIfDue(srvs[..n], now, i);
    } else {
      CallsAbout(srvs[..n], now);
    }
  }

  // ---------- What each step does, seen in the log ----------

  lemma OneMore(log: seq<Call>, c: Call, d: Call)
    ensures multiset(log + [c])[d] == multiset(log)[d] + if c == d then 1 else 0
  {
    assert multiset(log + [c]) == multiset(log) + multiset{c};
  }

  // What the last service adds to the calls of one kind.
  lemma LastCalls(srvs: seq<Srv>, now: int, d: Call)
    requires srvs != []
    ensures var n := |srvs| - 1;
      multiset(TickCalls(srvs, now))[d] == multiset(TickCalls(srvs[..n], now))[d]
        + if d == Ticked(srvs[n].id, now) && now > Add64(srvs[n].lastTick, srvs[n].tickSecs) then 1 else 0
  {
    hide Add64;
    OneMore(TickCalls(srvs[..|srvs| - 1], now), Ticked(srvs[|srvs| - 1].id, now), d);
  }

  lemma {:induction false} TickCount(srvs: seq<Srv>, now: int, i: nat)
    requires i < |srvs| && DistinctIds(srvs)
    ensures multiset(TickCalls(srvs, now))[Ticked(srvs[i].id, now)]
         == if now > Add64(srvs[i].lastTick, srvs[i].tickSecs) then 1 else 0
  {
    hide Add64, TickCalls;
    var n := |srvs| - 1;
    LastCalls(srvs, now, Ticked(srvs[i].id, now));
    if i < n {
      TickCount(srvs[..n], now, i);
    } else {
      NotCalled(srvs, now);
    }
  }

  // The services before the last one are others.
  lemma NotCalled(srvs: seq<Srv>, now: int)
    requires srvs != [] && DistinctIds(srvs)
    ensures var n := |srvs| - 1; multiset(TickCalls(srvs[..n], now))[Ticked(srvs[n].id, now)] == 0
  {
    hide TickCalls;
    var n := |srvs| - 1;
    CallsAbout(srvs[..n], now);
    assert Ticked(srvs[n].id, now) !in TickCalls(srvs[..n], now);
  }

  lemma ListedIs(s: State, id: nat)
    requires Inv(s) && !s.returned && id < |s.secs|
    ensures Listed(s.srvs, id) <==> Completions(s.log, id) == 0
  {
    hide LastTick, WellTicked, Completions;
    assert IdOk(s, id);
    if Listed(s.srvs, id) {
      var i: nat :| i < |s.srvs| && s.srvs[i].id == id;
      assert Running(s, i);
    }
  }

  // At a tick of the loop, in any run, a service is called once if it was not completed and its
  // period ended since its last tick, and is not called otherwise.
  lemma TicksWhenDue(run: seq<Event>, now: int, id: nat)
    requires IsRun(INIT, run) && !After(INIT, run).returned && id < |After(INIT, run).secs|
    ensures var t := After(INIT, run);
      && |t.cases| == |t.srvs| + 3
      && var u := Next(t, Event(2, now));
      && u.ticks == now && u.secs == t.secs && !u.returned && t.log <= u.log
      && var calls := u.log[|t.log|..];
      && (forall c | c in calls :: c.Ticked? && c.ticks == now)
      && multiset(calls)[Ticked(id, now)]
         == if Completions(t.log, id) == 0 && now > Add64(LastTick(t.log, id), t.secs[id]) then 1 else 0
  {
    hide IsRun, After;
    RunInv(INIT, run);
    var t := After(INIT, run);
    ListedIs(t, id);
    CallsAbout(t.srvs, now);
    hide LastTick, WellTicked, Completions, IdOk, TickCalls;
    assert (t.log + TickCalls(t.srvs, now))[|t.log|..] == TickCalls(t.srvs, now);
    if Listed(t.srvs, id) {
      var i: nat :| i < |t.srvs| && t.srvs[i].id == id;
      assert Running(t, i);
      TickCount(t.srvs, now, i);
    } else {
      assert Ticked(id, now) !in TickCalls(t.srvs, now);
    }
  }

  // The loop waits for main, for new services, for the ticker, and for the end of exactly the
  // services that were not completed.
  lemma WaitsFor(run: seq<Event>, id: nat)
    requires IsRun(INIT, run) && !After(INIT, run).returned
    ensures var t := After(INIT, run);
      && |t.cases| >= 3 && t.cases[..3] == [MainDone, AddChan, TickerChan]
      && (SrvDone(id) in t.cases <==> id < |t.secs| && Completions(t.log, id) == 0)
  {
    hide IsRun, After;
    RunInv(INIT, run);
    var t := After(INIT, run);
    hide LastTick, WellTicked, Completions, IdOk;
    if SrvDone(id) in t.cases {
      var k :| 0 <= k < |t.cases| && t.cases[k] == SrvDone(id);
      assert t.srvs[k - 3].id == id && Running(t, k - 3);
    }
    if id < |t.secs| {
      ListedIs(t, id);
      if Listed(t.srvs, id) {
        var i: nat :| i < |t.srvs| && t.srvs[i].id == id;
        assert t.cases[i + 3] == SrvDone(id);
      }
    }
  }

  // When the end of a service is chosen, it is that service which is completed.
  lemma CompletesTheChosen(run: seq<Event>, e: Event, id: nat)
    requires IsRun(INIT, run) && Enabled(After(INIT, run), e)
    requires After(INIT, run).cases[e.chosen] == SrvDone(id)
    ensures var t := After(INIT, run);
      && |t.cases| == |t.srvs| + 3
      && var u := Next(t, e);
      u.log == t.log + [Completed(id)] && u.secs == t.secs && u.ticks == t.ticks && !u.returned
  {
    hide IsRun, After;
    RunInv(INIT, run);
    var t := After(INIT, run);
    hide Running, IdOk;
    assert e.chosen >= 3 && t.cases[e.chosen - 3 + 3] == SrvDone(t.srvs[e.chosen - 3].id);
  }

  // Once main is done, every service that was not completed before is completed, and no other.
  lemma CompletesTheRest(run: seq<Event>, value: int, id: nat)
    requires IsRun(INIT, run) && !After(INIT, run).returned && id < |After(INIT, run).secs|
    ensures var t := After(INIT, run);
      && |t.cases| == |t.srvs| + 3
      && var u := Next(t, Event(0, value));
      && u.returned && t.log <= u.log
      && var calls := u.log[|t.log|..];
      && (forall c | c in calls :: c.Completed?)
      && multiset(calls)[Completed(id)] == (if Completions(t.log, id) == 0 then 1 else 0)
  {
    hide IsRun, After;
    RunInv(INIT, run);
    var t := After(INIT, run);
    ListedIs(t, id);
    CallsAbout(t.srvs, value);
    hide LastTick, WellTicked, Completions, IdOk, CompleteCalls;
    assert (t.log + CompleteCalls(t.srvs))[|t.log|..] == CompleteCalls(t.srvs);
    if Listed(t.srvs, id) {
      var i: nat :| i < |t.srvs| && t.srvs[i].id == id;
      CompleteCount(t.srvs, i);
    } else {
      assert Completed(id) !in CompleteCalls(t.srvs);
    }
  }

  lemma {:induction false} CompleteCount(srvs: seq<Srv>, i: nat)
    requires i < |srvs| && DistinctIds(srvs)
    ensures multiset(CompleteCalls(srvs))[Completed(srvs[i].id)] == 1
  {
    var n, c := |srvs| - 1, Completed(srvs[i].id);
    var first := CompleteCalls(srvs[..n]);
    if i < n {
      CompleteCount(srvs[..n], i);
    } else {
      CallsAbout(srvs[..n], 0);
      assert c !in first;
    }
    OneMore(first, Completed(srvs[n].id), c);
  }

  // ---------- The spacing of ticks, over whole runs ----------

  predicate Int64(x: int) {
    -0x8000_0000_0000_0000 <= x < 0x8000_0000_0000_0000
  }

  // The values received fit their types: tickSecs and the time are 64-bit integers.
  predicate Typed(run: seq<Event>) {
    forall e | e in run && (e.chosen == 1 || e.chosen == 2) :: Int64(e.value)
  }

  // Ticks carry times that were received, and services the periods they were added with.
  predicate Received(s: State, times: set<int>, periods: set<int>) {
    && (forall c | c in s.log && c.Ticked? :: c.ticks in times)
    && (forall p | p in s.secs :: p in periods)
  }

  function Times(run: seq<Event>): set<int> {
    set e | e in run && e.chosen == 2 :: e.value
  }

  function Periods(run: seq<Event>): set<int> {
    set e | e in run && e.chosen == 1 :: e.value
  }

  lemma StepReceived(s: State, e: Event, times: set<int>, periods: set<int>)
    requires Enabled(s, e) && |s.cases| == |s.srvs| + 3 && Received(s, times, periods)
    requires (e.chosen == 2 ==> e.value in times) && (e.chosen == 1 ==> e.value in periods)
    ensures Received(Next(s, e), times, periods)
  {
    CallsAbout(s.srvs, e.value);
  }

  lemma {:induction false} RunReceived(s: State, run: seq<Event>, times: set<int>, periods: set<int>)
    requires IsRun(s, run) && Received(s, times, periods)
    requires Times(run) <= times && Periods(run) <= periods
    ensures Received(After(s, run), times, periods)
    decreases |run|
  {
    hide Next, Enabled, Received;
    if run != [] {
      assert run[0] in run && forall e | e in run[1..] :: e in run;
      assert run[0].chosen == 2 ==> run[0].value in Times(run);
      assert run[0].chosen == 1 ==> run[0].value in Periods(run);
      StepReceived(s, run[0], times, periods);
      RunReceived(Next(s, run[0]), run[1..], times, periods);
    }
  }

  // In any run a tick of a service comes more than its period after the one before, exactly
  // unless the end of the period lies beyond the 64-bit integers.
  lemma TickSpacingExactly(run: seq<Event>, id: nat, a: nat, b: nat)
    requires IsRun(INIT, run) && Typed(run) && id < |After(INIT, run).secs|
    requires Consecutive(After(INIT, run).log, id, a, b)
    ensures var t := After(INIT, run);
      t.log[b].ticks > t.log[a].ticks + t.secs[id] <==> t.log[a].ticks + t.secs[id] < 0x8000_0000_0000_0000
  {
    hide IsRun, After, Add64, WellTicked;
    var t := After(INIT, run);
    CompletedOnce(run, id);
    TicksApart(t.log, id, t.secs[id], a, b);
    RunReceived(INIT, run, Times(run), Periods(run));
    assert t.log[a] in t.log && t.log[b] in t.log && t.secs[id] in t.secs;
    Add64Is(t.log[a].ticks, t.secs[id]);
  }

  lemma Add64Is(a: int, b: int)
    requires Int64(a) && Int64(b)
    ensures Int64(a + b) ==> Add64(a, b) == a + b
    ensures Int64(Add64(a, b)) && (Add64(a, b) - (a + b)) % 0x1_0000_0000_0000_0000 == 0
  {
  }

  // With a clock that reads times from 1970 to 2^62 seconds later, the spacing always holds,
  // whatever the period: a service whose period would overflow is never ticked.
  lemma TickSpacing(run: seq<Event>, id: nat, a: nat, b: nat)
    requires IsRun(INIT, run) && Typed(run) && id < |After(INIT, run).secs|
    requires forall e | e in run && e.chosen == 2 :: 0 <= e.value < 0x4000_0000_0000_0000
    requires Consecutive(After(INIT, run).log, id, a, b)
    ensures var t := After(INIT, run); t.log[b].ticks > t.log[a].ticks + t.secs[id]
  {
    hide IsRun, After, WellTicked;
    var t := After(INIT, run);
    CompletedOnce(run, id);
    TickSpacingExactly(run, id, a, b);
    RunReceived(INIT, run, Times(run), Periods(run));
    assert t.secs[id] in t.secs && t.log[a] in t.log;
    PeriodEnds(t.log, id, t.secs[id], a);
  }

  // A service that is ticked at all has a period that a clock below 2^62 reaches.
  lemma {:induction false} PeriodEnds(log: seq<Call>, id: nat, secs: int, a: nat)
    requires WellTicked(log, id, secs) && Int64(secs) && a < |log| && log[a].Ticked? && log[a].id == id
    requires forall c | c in log && c.Ticked? :: 0 <= c.ticks < 0x4000_0000_0000_0000
    ensures secs < 0x4000_0000_0000_0000
  {
    var n := |log| - 1;
    assert log[n] in log;
    if k: nat :| k < n && log[k].Ticked? && log[k].id == id {
      PeriodEnds(log[..n], id, secs, k);
    } else {
      NeverTicked(log[..n], id);
      Add64Is(0, secs);
    }
  }

  lemma {:induction false} NeverTicked(log: seq<Call>, id: nat)
    requires forall k | 0 <= k < |log| :: !(log[k].Ticked? && log[k].id == id)
    ensures LastTick(log, id) == 0
  {
    if log != [] { NeverTicked(log[..|log| - 1], id); }
  }

  // The bound on the clock is sharp: from 2^62 seconds on, where no real clock gets, a service
  // with such a period is ticked in two consecutive seconds.
  lemma OverflowLosesSpacing(secs: int, run: seq<Event>)
    requires 0x4000_0000_0000_0000 <= secs <= 0x7FFF_FFFF_FFFF_FFFD
    requires run == [Event(1, secs), Event(2, secs + 1), Event(2, secs + 2)]
    ensures IsRun(INIT, run) && After(INIT, run).log == [Ticked(0, secs + 1), Ticked(0, secs + 2)]
  {
    hide TickCalls, TickSrvs;
    var e0, e1, e2 := Event(1, secs), Event(2, secs + 1), Event(2, secs + 2);
    var s1 := Next(INIT, e0);
    assert s1.srvs == [Srv(0, secs, 0)];
    OneTick(s1.srvs[0], secs + 1);
    assert Due(s1.srvs[0], secs + 1);
    var s2 := Next(s1, e1);
    assert s2.srvs == [Srv(0, secs, secs + 1)] && s2.log == [Ticked(0, secs + 1)];
    OneTick(s2.srvs[0], secs + 2);
    assert Due(s2.srvs[0], secs + 2);
    var s3 := Next(s2, e2);
    assert s3.log == [Ticked(0, secs + 1), Ticked(0, secs + 2)];
    assert [e0, e1, e2][1..] == [e1, e2] && [e1, e2][1..] == [e2] && [e2][1..] == [];
    assert IsRun(s3, []) && After(s3, []) == s3;
    assert IsRun(s2, [e2]) && After(s2, [e2]) == s3;
    assert IsRun(s1, [e1, e2]) && After(s1, [e1, e2]) == s3;
  }

  lemma OneTick(v: Srv, now: int)
    ensures TickCalls([v], now) == if Due(v, now) then [Ticked(v.id, now)] else []
    ensures TickSrvs([v], now) == if Due(v, now) then [v.(lastTick := now)] else [v]
  {
    assert [v][..0] == [];
  }

  // ---------- The goroutine ----------

  class Selector {
    var dsSrvices: seq<Srv>
    var selectCases: seq<Case>
    var ticks: int
    var returned: bool
    ghost var secs: seq<int>
    ghost var log: seq<Call>
    var numAdded: nat

    ghost function View(): State
      reads this
    {
      State(dsSrvices, selectCases, ticks, returned, secs, log)
    }

    ghost predicate Valid()
      reads this
    {
      Inv(View()) && numAdded == |secs|
    }

    constructor ()
      ensures Valid() && View() == INIT
    {
      dsSrvices, selectCases, ticks, returned := [], [MainDone, AddChan, TickerChan], 0, false;
      secs, log, numAdded := [], [], 0;
    }

    // What one round of the loop does with the chosen case.
    method Round(e: Event)
      requires Valid() && Enabled(View(), e)
      modifies this
      ensures Valid()
      ensures View() == Next(old(View()), e)
    {
      StepInv(View(), e);
      hide Inv;
      if e.chosen == 0 {
        CompleteAll();
        returned := true;
      } else if e.chosen == 1 {
        var dselectSrv := Srv(numAdded, e.value, 0);
        dsSrvices := dsSrvices + [dselectSrv];
        selectCases := selectCases + [SrvDone(numAdded)];
        secs, numAdded := secs + [e.value], numAdded + 1;
      } else if e.chosen == 2 {
        ticks := e.value;
        TickAll();
      } else {
        var index := e.chosen - 3;
        log := log + [Completed(dsSrvices[index].id)];
        dsSrvices := dsSrvices[..index] + dsSrvices[index + 1..];
        selectCases := selectCases[..e.chosen] + selectCases[e.chosen + 1..];
      }
    }

    method CompleteAll()
      modifies this`log
      ensures log == old(log) + CompleteCalls(dsSrvices)
    {
      for i := 0 to |dsSrvices|
        invariant log == old(log) + CompleteCalls(dsSrvices[..i])
      {
        assert dsSrvices[..i + 1][..i] == dsSrvices[..i];
        log := log + [Completed(dsSrvices[i].id)];
      }
      assert dsSrvices[..|dsSrvices|] == dsSrvices;
    }

    method TickAll()
      modifies this`dsSrvices, this`log
      ensures dsSrvices == TickSrvs(old(dsSrvices), ticks)
      ensures log == old(log) + TickCalls(old(dsSrvices), ticks)
    {
      ghost var srvs := dsSrvices;
      for index := 0 to |dsSrvices|
        invariant |dsSrvices| == |srvs|
        invariant dsSrvices[..index] == TickSrvs(srvs, ticks)[..index] && dsSrvices[index..] == srvs[index..]
        invariant log == old(log) + TickCalls(srvs[..index], ticks)
      {
        assert srvs[..index + 1][..index] == srvs[..index];
        var dsSrv := dsSrvices[index];
        assert dsSrv == srvs[index];
        if ticks > Add64(dsSrv.lastTick, dsSrv.tickSecs) {
          log := log + [Ticked(dsSrv.id, ticks)];
          dsSrvices := dsSrvices[index := dsSrv.(lastTick := ticks)];
        }
      }
      assert srvs[..|srvs|] == srvs;
    }
  }
}
