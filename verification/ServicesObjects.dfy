// services.go: the serviceRecord and services objects. The clock is an object whose readings
// strictly increase.
module ServicesObjects {
  import opened Bits
  import S = Services

  class Clock {
    var now: int

    constructor ()
    {
      now := 0;
    }

    method Now() returns (t: int)
      modifies this
      ensures t == now > old(now)
    {
      t :| t > now;
      now := t;
    }
  }

  class ServiceRecord {
    var hasLearned: bool
    var numSamples: Word
    var pileCount: Word
    var pileLastLearn: int
    var guardianLastPersist: int
    var guardianPersistCounter: nat
    var guardianLearnCounter: nat
    var pileMergeCounter: nat
    var deleted: bool
    ghost var learned: nat
    ghost var merged: nat

    ghost function View(): S.Record
      reads this
    {
      S.Record(hasLearned, numSamples, pileCount, pileLastLearn, guardianLastPersist, guardianPersistCounter,
               guardianLearnCounter, pileMergeCounter, deleted, learned, merged)
    }

    // set: a record for a guardian that was loaded or made up
    constructor (hasLearned: bool, numSamples: Word)
      ensures View() == S.Record(hasLearned, numSamples, 0, S.EPOCH, S.EPOCH, 0, 0, 0, false, 0, 0)
    {
      this.hasLearned, this.numSamples, pileCount := hasLearned, numSamples, 0;
      pileLastLearn, guardianLastPersist := S.EPOCH, S.EPOCH;
      guardianPersistCounter, guardianLearnCounter, pileMergeCounter := 0, 0, 0;
      deleted, learned, merged := false, 0, 0;
    }
  }

  class Services {
    const clock: Clock
    var cache: map<string, ServiceRecord>
    var records: seq<ServiceRecord>
    var lastCreatedRecords: int

    ghost predicate Distinct(rs: seq<ServiceRecord>) {
      forall i, j | 0 <= i < j < |rs| :: rs[i] != rs[j]
    }

    ghost function Views(rs: seq<ServiceRecord>): seq<S.Record>
      reads rs
    {
      seq(|rs|, i requires 0 <= i < |rs| reads rs => rs[i].View())
    }

    constructor ()
      ensures cache == map[] && records == [] && fresh(clock)
    {
      clock := new Clock();
      cache, records, lastCreatedRecords := map[], [], 0;
    }

    // The learning step: the pile is learned, counted and cleared.
    method LearnPile(record: ServiceRecord, now: int)
      modifies record
      ensures record.View() == S.Learn(old(record.View()), now)
    {
      record.learned := record.learned + record.pileCount;
      record.numSamples := (record.numSamples + record.pileCount) % UINT32_LIMIT;
      if record.numSamples > S.NUM_SAMPLES_LIMIT {
        record.numSamples := S.NUM_SAMPLES_LIMIT;
      }
      record.pileLastLearn := now;
      record.pileCount := 0;
      record.guardianLearnCounter := record.guardianLearnCounter + 1;
    }

    method LearnAndPersistGuardian(record: ServiceRecord) returns (shouldPersist: bool, ghost c: S.Readings)
      modifies record, clock
      ensures (record.View(), shouldPersist) == S.LearnAndPersist(old(record.View()), c)
      ensures S.Increasing(old(clock.now), c) && clock.now == c.persistedAt
    {
      hide S.Learn;
      ghost var r := record.View();
      var shouldLearn := false;
      shouldPersist := false;
      var t1 := clock.Now();
      var t2 := clock.Now();
      var t3 := clock.Now();
      var t4 := clock.Now();
      c := S.Readings(t1, t2, t3, t4);
      if !record.hasLearned {
        record.hasLearned := true;
        shouldPersist := true;
        shouldLearn := true;
      } else {
        if record.pileCount >= S.PILE_MERGE_LIMIT || record.numSamples < (record.pileCount * 10) % UINT32_LIMIT
           || t1 - record.pileLastLearn >= S.PILE_LEARN_MIN_TIME {
          shouldLearn := true;
        }
        if t2 - record.guardianLastPersist > S.GUARDIAN_PERSIST_MIN_TIME {
          shouldPersist := true;
        }
      }
      assert shouldLearn == S.ShouldLearn(r, c) && shouldPersist == S.ShouldPersist(r, c);
      assert record.View() == r.(hasLearned := true);
      hide S.ShouldLearn, S.ShouldPersist;
      if shouldLearn && record.pileCount > 0 {
        LearnPile(record, t3);
        LearnKeepsPersist(r.(hasLearned := true), t3);
      }
      if shouldPersist && record.guardianLastPersist < record.pileLastLearn {
        record.guardianLastPersist := t4;
        record.guardianPersistCounter := record.guardianPersistCounter + 1;
      }
    }

    lemma LearnKeepsPersist(r: S.Record, now: int)
      ensures S.Learn(r, now).persistCounter == r.persistCounter
    {
    }

    // count is the size of the received pile, 0 when there is none.
    method MergeAndLearnAndPersistGuardian(record: ServiceRecord, count: Word) returns (ghost c: S.Readings)
      modifies record, clock
      ensures record.View() == S.MergeAndLearn(old(record.View()), count, c)
      ensures S.Increasing(old(clock.now), c)
    {
      if count > 0 {
        record.pileCount := (record.pileCount + count) % UINT32_LIMIT;
        record.merged := record.merged + count;
        record.pileMergeCounter := record.pileMergeCounter + 1;
      }
      ghost var r := record.View();
      var shouldPersist;
      shouldPersist, c := LearnAndPersistGuardian(record);
      assert record.View() == S.LearnAndPersist(r, c).0;
    }

    // The records of the cache, in whatever order the map yields them.
    method CacheRecords() returns (rs: seq<ServiceRecord>)
      requires forall k, l | k in cache && l in cache && k != l :: cache[k] != cache[l]
      ensures Distinct(rs) && |rs| == |cache|
      ensures forall r :: r in rs <==> r in cache.Values
    {
      rs := [];
      var rest := cache.Keys;
      while rest != {}
        invariant rest <= cache.Keys && |rs| + |rest| == |cache|
        invariant Distinct(rs)
        invariant forall r :: r in rs <==> exists k :: k in cache && k !in rest && cache[k] == r
        decreases |rest|
      {
        var k :| k in rest;
        assert cache[k] !in rs;
        rest := rest - {k};
        rs := rs + [cache[k]];
      }
    }

    method FlushTickerRecords()
      requires forall k, l | k in cache && l in cache && k != l :: cache[k] != cache[l]
      modifies this`records, cache.Values
      ensures Distinct(records) && |records| == |cache|
      ensures forall r :: r in records <==> r in cache.Values
      ensures forall r | r in records :: r.View() == S.Marked(old(r.View()))
    {
      var rs := CacheRecords();
      assert forall k | 0 <= k < |rs| :: rs[k] in rs && rs[k] in old(cache.Values);
      records := rs;
      for i := 0 to |rs|
        invariant records == rs
        invariant forall k | 0 <= k < i :: rs[k].View() == S.Marked(old(rs[k].View()))
        invariant forall k | i <= k < |rs| :: rs[k].View() == old(rs[k].View())
      {
        rs[i].pileLastLearn := S.EPOCH;
        rs[i].guardianLastPersist := S.EPOCH;
      }
    }

    method CreateRecords()
      requires forall k, l | k in cache && l in cache && k != l :: cache[k] != cache[l]
      modifies this`records, this`lastCreatedRecords, clock
      ensures lastCreatedRecords == old(lastCreatedRecords) ==> records == old(records)
      ensures lastCreatedRecords != old(lastCreatedRecords) ==>
        lastCreatedRecords - old(lastCreatedRecords) >= 300_000_000_000
        && Distinct(records) && forall r :: r in records <==> r in cache.Values
      ensures old(clock.now - lastCreatedRecords) >= 300_000_000_000
        ==> lastCreatedRecords != old(lastCreatedRecords)
    {
      var t1 := clock.Now();
      if t1 - lastCreatedRecords < S.GUARDIAN_PERSIST_MIN_TIME { return; }
      lastCreatedRecords := clock.Now();
      records := CacheRecords();
    }

    // The loop of tick: i records were processed.
    method ProcessRecords() returns (i: nat, ghost clocks: seq<S.Readings>)
      requires Distinct(records)
      modifies records, clock
      ensures S.TickStops(old(Views(records)), clocks) && i == |clocks|
      ensures forall c | c in clocks :: S.Increasing(old(clock.now), c)
      ensures clock.now >= old(clock.now)
      ensures forall k | 0 <= k < i :: records[k].View() == S.Processed(old(records[k].View()), clocks[k])
      ensures forall k | i <= k < |records| :: records[k].View() == old(records[k].View())
    {
      hide S.LearnAndPersist, S.PersistCount;
      ghost var queue := Views(records);
      CountStart(queue);
      var numRecordsToProcess := |records|;
      if numRecordsToProcess > 100 { numRecordsToProcess := 100; }
      var persistCounter := 0;
      i, clocks := 0, [];
      while i < numRecordsToProcess && persistCounter <= 10
        invariant 0 <= i == |clocks| <= numRecordsToProcess
        invariant clock.now >= old(clock.now)
        invariant forall c | c in clocks :: S.Increasing(old(clock.now), c)
        invariant forall k | 0 <= k < i :: records[k].View() == S.Processed(queue[k], clocks[k])
        invariant forall k | i <= k < |records| :: records[k].View() == queue[k]
        invariant persistCounter == S.PersistCount(queue, clocks, i)
        invariant forall k: nat | k < i :: S.PersistCount(queue, clocks, k) <= 10
      {
        var r := records[i];
        ghost var before := clocks;
        if r.deleted {
          clocks := clocks + [S.Readings(clock.now + 1, clock.now + 2, clock.now + 3, clock.now + 4)];
        } else {
          var p, c := LearnAndPersistGuardian(r);
          clocks := clocks + [c];
          if p { persistCounter := persistCounter + 1; }
        }
        CountNext(queue, before, clocks, i);
        i := i + 1;
      }
    }

    // One tick over a queue that is not empty.
    method TickQueue() returns (ghost clocks: seq<S.Readings>)
      requires records != [] && Distinct(records)
      modifies this`records, records, clock
      ensures S.TickStops(old(Views(records)), clocks)
      ensures forall c | c in clocks :: S.Increasing(old(clock.now), c)
      ensures clock.now >= old(clock.now)
      ensures records == old(records)[|clocks|..]
      ensures Views(old(records)) == S.TickPrefix(old(Views(records)), clocks) + old(Views(records))[|clocks|..]
    {
      hide S.Processed, S.PersistCount;
      var i;
      i, clocks := ProcessRecords();
      records := records[i..];
    }

    // main.go: the loop that ends mainEventLoop.
    method PersistAll() returns (ticks: nat)
      requires forall k, l | k in cache && l in cache && k != l :: cache[k] != cache[l]
      requires clock.now >= S.GUARDIAN_PERSIST_MIN_TIME
      modifies this`records, cache.Values, clock
      ensures records == [] && ticks <= (|cache| + 10) / 11
      ensures forall r | r in cache.Values :: r.deleted || S.Flushed(old(r.View()), r.View())
    {
      FlushTickerRecords();
      ghost var rs := records;
      ghost var before := seq(|rs|, i requires 0 <= i < |rs| => old(rs[i].View()));
      ghost var f := S.FlushStart(before);
      assert Views(rs) == f.queue;
      ticks := 0;
      while records != []
        invariant S.FlushInv(before, f) && Views(rs) == f.done + f.queue && records == rs[|f.done|..]
        invariant clock.now >= S.GUARDIAN_PERSIST_MIN_TIME
        invariant if records == [] then 11 * ticks <= |rs| + 10 else |records| + 11 * ticks <= |rs|
        decreases |records|
      {
        f := TickStep(rs, before, f);
        ticks := ticks + 1;
      }
      forall r | r in cache.Values ensures r.deleted || S.Flushed(old(r.View()), r.View()) {
        var i :| 0 <= i < |rs| && rs[i] == r;
        assert Views(rs)[i] == f.done[i];
      }
    }

    // One tick of the flush; rs are all its records.
    method TickStep(ghost rs: seq<ServiceRecord>, ghost before: seq<S.Record>, ghost f: S.Flush)
      returns (ghost g: S.Flush)
      requires records != [] && Distinct(rs) && S.FlushInv(before, f) && |rs| == |before|
      requires Views(rs) == f.done + f.queue && records == rs[|f.done|..]
      requires clock.now >= S.GUARDIAN_PERSIST_MIN_TIME
      modifies this`records, rs, clock
      ensures S.FlushInv(before, g) && Views(rs) == g.done + g.queue && records == rs[|g.done|..]
      ensures |records| <= S.Min(old(|records|) - 1, if old(|records|) > 11 then old(|records|) - 11 else 0)
      ensures clock.now >= old(clock.now)
    {
      hide S.FlushInv, S.LearnAndPersist, S.TickStops;
      ghost var first, rest := rs[..|f.done|], records;
      assert rs == first + rest;
      ViewsSplit(first, rest);
      Halves(Views(first), Views(rest), f.done, f.queue);
      assert forall r | r in first :: r !in rest;
      ghost var clocks := TickQueue();
      S.TickProgress(f.queue, clocks);
      hide S.TickPrefix;
      assert Views(first) == f.done;
      ViewsSplit(first, rest);
      S.FlushStepInv(before, f, S.Tick(clocks));
      g := S.FlushNext(f, S.Tick(clocks));
    }

    lemma ViewsSplit(a: seq<ServiceRecord>, b: seq<ServiceRecord>)
      ensures Views(a + b) == Views(a) + Views(b)
    {
    }

    lemma Halves<T>(a: seq<T>, b: seq<T>, c: seq<T>, d: seq<T>)
      requires a + b == c + d && |a| == |c|
      ensures a == c && b == d
    {
      assert a == (a + b)[..|a|] && c == (c + d)[..|a|];
      assert b == (a + b)[|a|..] && d == (c + d)[|a|..];
    }

    lemma CountStart(queue: seq<S.Record>)
      ensures S.PersistCount(queue, [], 0) == 0
    {
    }

    // The count only looks at the clock readings of the records counted.
    lemma CountNext(queue: seq<S.Record>, a: seq<S.Readings>, b: seq<S.Readings>, n: nat)
      requires n == |a| < |queue| && |b| == n + 1 && a <= b
      ensures forall k: nat | k <= n :: S.PersistCount(queue, a, k) == S.PersistCount(queue, b, k)
      ensures S.PersistCount(queue, b, n + 1) == S.PersistCount(queue, b, n)
        + if !queue[n].deleted && S.LearnAndPersist(queue[n], b[n]).1 then 1 else 0
    {
      for k := 0 to n
        invariant forall l: nat | l <= k :: S.PersistCount(queue, a, l) == S.PersistCount(queue, b, l)
      {
        assert a[k] == b[k];
      }
    }
  }
}
