// services.go: the record guard-service keeps per deployed service, when it learns its pile
// and persists its guardian, and the queue of records that ticks work through.
module Services {
  import opened Bits

  const SECOND := 1_000_000_000
  const PILE_MERGE_LIMIT := 1000
  const NUM_SAMPLES_LIMIT := 1_000_000
  const PILE_LEARN_MIN_TIME := 30 * SECOND
  const GUARDIAN_PERSIST_MIN_TIME := 300 * SECOND
  const EPOCH := 0

  // pileCount and numSamples are uint32. learned and merged are history: all samples learned
  // and all samples merged.
  datatype Record = Record(
    hasLearned: bool,
    numSamples: Word,
    pileCount: Word,
    pileLastLearn: int,
    guardianLastPersist: int,
    persistCounter: nat,
    learnCounter: nat,
    mergeCounter: nat,
    deleted: bool,
    learned: nat,
    merged: nat)

  // The successive readings of the clock during one call.
  datatype Readings = Readings(sinceLearn: int, sincePersist: int, learnedAt: int, persistedAt: int)

  // The clock is strictly increasing.
  predicate Increasing(after: int, c: Readings) {
    after < c.sinceLearn < c.sincePersist < c.learnedAt < c.persistedAt
  }

  function AddSamples(numSamples: Word, count: Word): Word {
    var sum := (numSamples + count) % UINT32_LIMIT;
    if sum > NUM_SAMPLES_LIMIT then NUM_SAMPLES_LIMIT else sum
  }

  predicate ShouldLearn(r: Record, c: Readings) {
    || !r.hasLearned
    || r.pileCount >= PILE_MERGE_LIMIT
    || r.numSamples < (r.pileCount * 10) % UINT32_LIMIT
    || c.sinceLearn - r.pileLastLearn >= PILE_LEARN_MIN_TIME
  }

  predicate ShouldPersist(r: Record, c: Readings) {
    !r.hasLearned || c.sincePersist - r.guardianLastPersist > GUARDIAN_PERSIST_MIN_TIME
  }

  function Learn(r: Record, now: int): Record {
    r.(numSamples := AddSamples(r.numSamples, r.pileCount),
       pileLastLearn := now,
       pileCount := 0,
       learnCounter := r.learnCounter + 1,
       learned := r.learned + r.pileCount)
  }

  // learnAndPersistGuardian: the new record and the returned flag
  function LearnAndPersist(r: Record, c: Readings): (Record, bool) {
    var r1 := r.(hasLearned := true);
    var r2 := if ShouldLearn(r, c) && r.pileCount > 0 then Learn(r1, c.learnedAt) else r1;
    var r3 :=
      if ShouldPersist(r, c) && r2.guardianLastPersist < r2.pileLastLearn
      then r2.(guardianLastPersist := c.persistedAt, persistCounter := r.persistCounter + 1) else r2;
    (r3, ShouldPersist(r, c))
  }

  // The returned flag is the wish to persist. Persisting is started exactly when there also is
  // something learned that was not persisted, in this call or before.
  lemma PersistsExactly(r: Record, c: Readings)
    requires r.guardianLastPersist < c.learnedAt
    ensures var (t, flag) := LearnAndPersist(r, c);
      t.persistCounter == r.persistCounter + 1 <==>
        flag && ((ShouldLearn(r, c) && r.pileCount > 0) || r.guardianLastPersist < r.pileLastLearn)
    ensures LearnAndPersist(r, c).0.persistCounter <= r.persistCounter + 1
    ensures LearnAndPersist(r, c).1 <==> !r.hasLearned || c.sincePersist - r.guardianLastPersist > 300_000_000_000
  {
    hide ShouldLearn, AddSamples;
  }

  // A pile is learned exactly when it is not empty and either nothing was learned yet, it holds a
  // thousand samples, it holds more than a tenth of what the guardian saw, or it waited for half a
  // minute. Then it is emptied; otherwise it stays as it is.
  lemma LearnsExactly(r: Record, c: Readings)
    ensures var t := LearnAndPersist(r, c).0;
      var learns := r.pileCount > 0
        && (|| !r.hasLearned
            || r.pileCount >= 1000
            || r.numSamples < 10 * r.pileCount % 0x1_0000_0000
            || c.sinceLearn - r.pileLastLearn >= 30_000_000_000);
      && t.learnCounter == r.learnCounter + (if learns then 1 else 0)
      && t.pileCount == (if learns then 0 else r.pileCount)
      && t.learned == r.learned + r.pileCount - t.pileCount
      && t.pileLastLearn == (if learns then c.learnedAt else r.pileLastLearn)
      && t.hasLearned
  {
    hide AddSamples;
  }

  // Merging a pile of count samples; an absent or empty pile is ignored.
  function Merge(r: Record, count: Word): Record {
    if count == 0 then r
    else r.(pileCount := (r.pileCount + count) % UINT32_LIMIT,
            mergeCounter := r.mergeCounter + 1,
            merged := r.merged + count)
  }

  // mergeAndLearnAndPersistGuardian
  function MergeAndLearn(r: Record, count: Word, c: Readings): Record {
    LearnAndPersist(Merge(r, count), c).0
  }

  // ---------- Sample accounting ----------

  // A call on the record: a sync that brings count samples, or a tick (count 0).
  datatype Call = Call(count: Word, c: Readings)

  function Min(a: nat, b: nat): nat {
    if a < b then a else b
  }

  // initial is the number of samples the guardian was loaded with.
  predicate Accounted(r: Record, initial: Word) {
    && r.learned + r.pileCount == r.merged
    && r.numSamples == (if r.learnCounter == 0 then initial else Min(NUM_SAMPLES_LIMIT, initial + r.learned))
    && (r.learnCounter == 0 ==> r.learned == 0)
  }

  // After a call the pile is empty or small.
  predicate PileSmall(r: Record) {
    r.pileCount == 0 || (r.hasLearned && r.pileCount < PILE_MERGE_LIMIT && 10 * r.pileCount <= r.numSamples)
  }

  // The 32-bit counters do not wrap when count more samples arrive.
  predicate NoWrap(r: Record, count: nat) {
    r.numSamples + r.pileCount + count < UINT32_LIMIT
  }

  lemma LearnAccounts(r: Record, initial: Word, now: int)
    requires Accounted(r, initial) && NoWrap(r, 0) && r.pileCount > 0
    ensures Accounted(Learn(r, now), initial)
  {
  }

  lemma LearnAndPersistAccounts(r: Record, initial: Word, c: Readings)
    requires Accounted(r, initial) && NoWrap(r, 0)
    ensures Accounted(LearnAndPersist(r, c).0, initial)
    ensures PileSmall(LearnAndPersist(r, c).0)
  {
    var r1 := r.(hasLearned := true);
    if r.pileCount > 0 { LearnAccounts(r1, initial, c.learnedAt); }
    hide AddSamples;
  }

  lemma CallAccounts(r: Record, initial: Word, count: Word, c: Readings)
    requires Accounted(r, initial) && NoWrap(r, count)
    ensures Accounted(MergeAndLearn(r, count, c), initial)
    ensures PileSmall(MergeAndLearn(r, count, c))
  {
    LearnAndPersistAccounts(Merge(r, count), initial, c);
  }

  lemma WrapLosesCount(r: Record, initial: Word, count: Word, c: Readings)
    requires Accounted(r, initial) && PileSmall(r) && initial <= NUM_SAMPLES_LIMIT && !NoWrap(r, count)
    ensures !Accounted(MergeAndLearn(r, count, c), initial)
  {
    var m := Merge(r, count);
    if r.pileCount + count < UINT32_LIMIT {
      assert m.pileCount == r.pileCount + count >= PILE_MERGE_LIMIT;
    } else {
      assert m.pileCount == r.pileCount + count - UINT32_LIMIT;
    }
    hide ShouldPersist;
  }

  // A whole call keeps the accounting exactly unless one of the 32-bit sums wraps: the pile
  // counter when the pile is merged, or the number of samples when it is learned.
  lemma CallAccountsExactly(r: Record, initial: Word, count: Word, c: Readings)
    requires Accounted(r, initial) && PileSmall(r) && initial <= NUM_SAMPLES_LIMIT
    ensures Accounted(MergeAndLearn(r, count, c), initial) <==> NoWrap(r, count)
  {
    if NoWrap(r, count) {
      CallAccounts(r, initial, count, c);
    } else {
      WrapLosesCount(r, initial, count, c);
    }
  }

  // A full guardian that is sent a pile of 2^32-1 samples: the pile counter has room for them, the
  // number of samples does not, and falls below its cap.
  lemma SamplesWrap(c: Readings)
    ensures var r := Record(true, 1_000_000, 0, EPOCH, EPOCH, 0, 0, 0, false, 0, 0);
      var t := MergeAndLearn(r, 0xFFFF_FFFF, c);
      && Accounted(r, 1_000_000) && r.pileCount + 0xFFFF_FFFF < UINT32_LIMIT
      && t.learned + t.pileCount == t.merged
      && t.numSamples == 999_999 && !Accounted(t, 1_000_000)
  {
    var r := Record(true, 1_000_000, 0, EPOCH, EPOCH, 0, 0, 0, false, 0, 0);
    assert Merge(r, 0xFFFF_FFFF).pileCount == 0xFFFF_FFFF;
  }

  // Learned plus pending is all that was merged, exactly unless the pile counter wraps.
  lemma MergeAccountsExactly(r: Record, count: Word)
    requires r.learned + r.pileCount == r.merged
    ensures var m := Merge(r, count);
      m.learned + m.pileCount == m.merged <==> r.pileCount + count < UINT32_LIMIT
  {
  }

  function RunOf(r: Record, calls: seq<Call>): Record {
    if calls == [] then r
    else
      var n := |calls| - 1;
      MergeAndLearn(RunOf(r, calls[..n]), calls[n].count, calls[n].c)
  }

  // The largest pile that can be merged into any record without a sum wrapping.
  const SAFE_COUNT: nat := UINT32_LIMIT - NUM_SAMPLES_LIMIT - PILE_MERGE_LIMIT

  // Over any run of syncs and ticks: every merged sample is learned or pending, the sample
  // count is the capped total, and the pile stays small.
  lemma {:induction false} SampleAccounting(r: Record, calls: seq<Call>)
    requires r.learned == r.merged == r.pileCount == r.learnCounter == 0
    requires r.numSamples <= NUM_SAMPLES_LIMIT
    requires forall c | c in calls :: c.count < SAFE_COUNT
    ensures var t := RunOf(r, calls);
      && t.learned + t.pileCount == t.merged
      && t.numSamples == Min(NUM_SAMPLES_LIMIT, r.numSamples + t.learned)
      && PileSmall(t)
      && Accounted(t, r.numSamples)
  {
    if calls != [] {
      var n := |calls| - 1;
      SampleAccounting(r, calls[..n]);
      assert calls[n] in calls && NoWrap(RunOf(r, calls[..n]), calls[n].count);
      CallAccounts(RunOf(r, calls[..n]), r.numSamples, calls[n].count, calls[n].c);
    }
  }

  // Piles of at most 2000 samples, as gates send them, never wrap a counter that started in range.
  lemma GatePilesDoNotWrap(r: Record, initial: Word, count: nat)
    requires Accounted(r, initial) && PileSmall(r) && count <= 2000 && initial <= NUM_SAMPLES_LIMIT
    ensures NoWrap(r, count)
  {
  }

  // ---------- Persisting, over whole runs ----------

  // When the calls before call i ended.
  function Before(calls: seq<Call>, i: nat): int
    requires i <= |calls|
  {
    if i == 0 then EPOCH else calls[i - 1].c.persistedAt
  }

  // The clock is strictly increasing from call to call as well.
  predicate Ordered(calls: seq<Call>) {
    forall i | 0 <= i < |calls| :: Increasing(Before(calls, i), calls[i].c)
  }

  // A record as it is created.
  predicate New(r: Record) {
    r.persistCounter == r.learnCounter == 0 && r.pileLastLearn == r.guardianLastPersist == EPOCH
  }

  function EndOf(calls: seq<Call>): int {
    Before(calls, |calls|)
  }

  lemma OrderedPrefix(calls: seq<Call>, n: nat)
    requires Ordered(calls) && n <= |calls|
    ensures Ordered(calls[..n])
    ensures n < |calls| ==> Increasing(EndOf(calls[..n]), calls[n].c)
  {
    hide Increasing;
    forall i | 0 <= i <= n ensures Before(calls[..n], i) == Before(calls, i) {}
    forall i | 0 <= i < n ensures Increasing(Before(calls[..n], i), calls[..n][i].c) {}
  }

  // What was learned and not persisted is owed one persist.
  predicate PersistsOwed(r: Record, end: int) {
    && r.pileLastLearn <= end && r.guardianLastPersist <= end
    && r.persistCounter + (if r.guardianLastPersist < r.pileLastLearn then 1 else 0) <= r.learnCounter
  }

  lemma CallOwes(r: Record, end: int, call: Call)
    requires PersistsOwed(r, end) && Increasing(end, call.c)
    ensures PersistsOwed(MergeAndLearn(r, call.count, call.c), call.c.persistedAt)
  {
    hide ShouldLearn, ShouldPersist, AddSamples;
  }

  lemma {:induction false} RunOwes(r: Record, calls: seq<Call>)
    requires New(r) && Ordered(calls)
    ensures PersistsOwed(RunOf(r, calls), EndOf(calls))
  {
    hide MergeAndLearn, PersistsOwed, Ordered, Increasing;
    if calls == [] {
      NothingOwed(r);
    } else {
      var n := |calls| - 1;
      OrderedPrefix(calls, n);
      RunOwes(r, calls[..n]);
      CallOwes(RunOf(r, calls[..n]), EndOf(calls[..n]), calls[n]);
    }
  }

  lemma NothingOwed(r: Record)
    requires New(r)
    ensures PersistsOwed(r, EPOCH)
  {
  }

  // A guardian is persisted at most once for each time a pile was learned into it.
  lemma PersistsFollowLearns(r: Record, calls: seq<Call>)
    requires New(r) && Ordered(calls)
    ensures RunOf(r, calls).persistCounter <= RunOf(r, calls).learnCounter
  {
    RunOwes(r, calls);
  }

  // Call i of the run starts a persist.
  predicate Persists(r: Record, calls: seq<Call>, i: nat)
    requires i < |calls|
  {
    RunOf(r, calls[..i + 1]).persistCounter > RunOf(r, calls[..i]).persistCounter
  }

  // From call i on the record remembers that it was persisted then, or later.
  predicate PersistedSince(r: Record, time: int) {
    r.hasLearned && r.guardianLastPersist >= time
  }

  lemma PersistSets(r: Record, call: Call)
    requires MergeAndLearn(r, call.count, call.c).persistCounter > r.persistCounter
    ensures PersistedSince(MergeAndLearn(r, call.count, call.c), call.c.persistedAt)
    ensures r.hasLearned ==> call.c.sincePersist - r.guardianLastPersist > 300_000_000_000
  {
    hide ShouldLearn, AddSamples;
  }

  lemma PersistStays(r: Record, call: Call, time: int)
    requires PersistedSince(r, time) && call.c.persistedAt >= time
    ensures PersistedSince(MergeAndLearn(r, call.count, call.c), time)
  {
    hide ShouldLearn, ShouldPersist, AddSamples;
  }

  lemma RunStep(r: Record, calls: seq<Call>, i: nat)
    requires i < |calls|
    ensures RunOf(r, calls[..i + 1]) == MergeAndLearn(RunOf(r, calls[..i]), calls[i].count, calls[i].c)
  {
    hide MergeAndLearn;
    assert calls[..i + 1][..i] == calls[..i];
  }

  lemma NextEnd(calls: seq<Call>, n: nat)
    requires Ordered(calls) && 0 < n < |calls|
    ensures calls[n - 1].c.persistedAt < calls[n].c.sincePersist < calls[n].c.persistedAt
  {
    assert Increasing(Before(calls, n), calls[n].c);
  }

  lemma {:induction false} RemembersPersist(r: Record, calls: seq<Call>, i: nat, n: nat)
    requires Ordered(calls) && i < n <= |calls| && Persists(r, calls, i)
    ensures PersistedSince(RunOf(r, calls[..n]), calls[i].c.persistedAt)
    ensures calls[i].c.persistedAt <= calls[n - 1].c.persistedAt
    decreases n
  {
    hide MergeAndLearn, RunOf, PersistedSince, Ordered;
    RunStep(r, calls, n - 1);
    if n - 1 == i {
      PersistSets(RunOf(r, calls[..i]), calls[i]);
    } else {
      hide Persists;
      RemembersPersist(r, calls, i, n - 1);
      NextEnd(calls, n - 1);
      PersistStays(RunOf(r, calls[..n - 1]), calls[n - 1], calls[i].c.persistedAt);
    }
  }

  // Between two persists of a guardian lie more than five minutes.
  lemma PersistSpacing(r: Record, calls: seq<Call>, i: nat, j: nat)
    requires Ordered(calls) && i < j < |calls| && Persists(r, calls, i) && Persists(r, calls, j)
    ensures calls[j].c.sincePersist - calls[i].c.persistedAt > 300_000_000_000
  {
    RemembersPersist(r, calls, i, j);
    RunStep(r, calls, j);
    hide MergeAndLearn, RunOf;
    PersistSets(RunOf(r, calls[..j]), calls[j]);
  }

  // When a persist was last started, or the epoch.
  function LastPersist(r: Record, calls: seq<Call>): int {
    if calls == [] then EPOCH
    else
      var n := |calls| - 1;
      if Persists(r, calls, n) then calls[n].c.persistedAt else LastPersist(r, calls[..n])
  }

  // When a pile was last learned, or the epoch.
  function LastLearn(r: Record, calls: seq<Call>): int {
    if calls == [] then EPOCH
    else
      var n := |calls| - 1;
      if RunOf(r, calls).learnCounter > RunOf(r, calls[..n]).learnCounter then calls[n].c.learnedAt
      else LastLearn(r, calls[..n])
  }

  lemma CallTimes(r: Record, end: int, call: Call)
    requires PersistsOwed(r, end) && Increasing(end, call.c)
    ensures var t := MergeAndLearn(r, call.count, call.c);
      && t.guardianLastPersist ==
         (if t.persistCounter > r.persistCounter then call.c.persistedAt else r.guardianLastPersist)
      && t.pileLastLearn == (if t.learnCounter > r.learnCounter then call.c.learnedAt else r.pileLastLearn)
      && t.hasLearned
      && (t.persistCounter > r.persistCounter <==>
            && r.guardianLastPersist < t.pileLastLearn
            && (!r.hasLearned || call.c.sincePersist - r.guardianLastPersist > 300_000_000_000))
  {
    hide ShouldLearn, AddSamples;
  }

  lemma {:induction false} RunTimes(r: Record, calls: seq<Call>)
    requires New(r) && Ordered(calls)
    ensures var t := RunOf(r, calls);
      && t.guardianLastPersist == LastPersist(r, calls)
      && t.pileLastLearn == LastLearn(r, calls)
      && t.hasLearned == (calls != [] || r.hasLearned)
  {
    hide MergeAndLearn, PersistsOwed, Ordered, Increasing;
    if calls != [] {
      var n := |calls| - 1;
      OrderedPrefix(calls, n);
      RunTimes(r, calls[..n]);
      RunOwes(r, calls[..n]);
      CallTimes(RunOf(r, calls[..n]), EndOf(calls[..n]), calls[n]);
      assert calls[..n + 1] == calls;
    }
  }

  // And a persist is not put off: a call persists exactly if a pile was learned after the last
  // persist, this call included, and that was more than five minutes ago or this is the first call.
  lemma PersistsWhenDue(r: Record, calls: seq<Call>, n: nat)
    requires New(r) && Ordered(calls) && n < |calls|
    ensures Persists(r, calls, n) <==>
      && LastPersist(r, calls[..n]) < LastLearn(r, calls[..n + 1])
      && (|| (n == 0 && !r.hasLearned)
          || calls[n].c.sincePersist - LastPersist(r, calls[..n]) > 300_000_000_000)
  {
    hide RunOf, MergeAndLearn, PersistsOwed, LastLearn, LastPersist, Increasing;
    OrderedPrefix(calls, n);
    OrderedPrefix(calls, n + 1);
    hide Ordered;
    assert calls[..n + 1][..n] == calls[..n];
    RunOwes(r, calls[..n]);
    RunStep(r, calls, n);
    RunTimes(r, calls[..n]);
    RunTimes(r, calls[..n + 1]);
    CallTimes(RunOf(r, calls[..n]), EndOf(calls[..n]), calls[n]);
  }

  // ---------- Ticks ----------

  // What a tick does to one queued record; deleted records are skipped.
  function Processed(r: Record, c: Readings): Record {
    if r.deleted then r else LearnAndPersist(r, c).0
  }

  // How many of the first n queued records reported that they should be persisted.
  function PersistCount(queue: seq<Record>, clocks: seq<Readings>, n: nat): (count: nat)
    requires n <= |queue| && n <= |clocks|
    ensures count <= n
  {
    if n == 0 then 0
    else
      PersistCount(queue, clocks, n - 1)
      + if !queue[n - 1].deleted && LearnAndPersist(queue[n - 1], clocks[n - 1]).1 then 1 else 0
  }

  // tick works through the queue until it has seen a hundred records or the end of the queue,
  // or eleven records reported that they should be persisted. clocks holds one entry for
  // every record it processed.
  predicate TickStops(queue: seq<Record>, clocks: seq<Readings>) {
    && |clocks| <= Min(100, |queue|)
    && (forall k: nat | k < |clocks| :: PersistCount(queue, clocks, k) <= 10)
    && (|clocks| == Min(100, |queue|) || PersistCount(queue, clocks, |clocks|) > 10)
  }

  function TickPrefix(queue: seq<Record>, clocks: seq<Readings>): seq<Record>
    requires |clocks| <= |queue|
  {
    seq(|clocks|, i requires 0 <= i < |clocks| => Processed(queue[i], clocks[i]))
  }

  // A tick gets through at least eleven records, or all there are.
  lemma TickProgress(queue: seq<Record>, clocks: seq<Readings>)
    requires TickStops(queue, clocks)
    ensures Min(11, |queue|) <= |clocks| <= |queue| && |clocks| <= 100
  {
  }

  // It stops early only at the eleventh record that reported, and none is reported after it.
  lemma TickStopsAtEleven(queue: seq<Record>, clocks: seq<Readings>)
    requires TickStops(queue, clocks)
    ensures PersistCount(queue, clocks, |clocks|) <= 11
    ensures |clocks| < |queue| && |clocks| < 100 ==> PersistCount(queue, clocks, |clocks|) == 11
  {
    hide LearnAndPersist;
  }

  // ---------- The shutdown flush ----------

  // flushTickerRecords marks a record for immediate learning and persisting.
  function Marked(r: Record): Record {
    r.(pileLastLearn := EPOCH, guardianLastPersist := EPOCH)
  }

  // The records of the cache in queue order: those processed and those still queued.
  datatype Flush = Flush(done: seq<Record>, queue: seq<Record>)

  // Between ticks a watch may delete any record.
  datatype FlushEvent = Tick(clocks: seq<Readings>) | Delete(i: nat)

  function FlushStart(cache: seq<Record>): Flush {
    Flush([], seq(|cache|, i requires 0 <= i < |cache| => Marked(cache[i])))
  }

  predicate FlushEnabled(f: Flush, e: FlushEvent) {
    match e
    case Tick(clocks) =>
      f.queue != [] && TickStops(f.queue, clocks)
      && (forall c | c in clocks :: Increasing(GUARDIAN_PERSIST_MIN_TIME, c))
    case Delete(i) => i < |f.done| + |f.queue|
  }

  function FlushNext(f: Flush, e: FlushEvent): Flush
    requires FlushEnabled(f, e)
  {
    match e
    case Tick(clocks) =>
      Flush(f.done + TickPrefix(f.queue, clocks), f.queue[|clocks|..])
    case Delete(i) =>
      if i < |f.done| then f.(done := f.done[i := f.done[i].(deleted := true)])
      else
        var k := i - |f.done|;
        f.(queue := f.queue[k := f.queue[k].(deleted := true)])
  }

  // A marked record that was processed: nothing is left in the pile, and a persist was
  // started exactly when the pile was not empty.
  predicate Flushed(r: Record, t: Record) {
    && t.pileCount == 0
    && t.persistCounter == r.persistCounter + (if r.pileCount > 0 then 1 else 0)
    && t.learnCounter == r.learnCounter + (if r.pileCount > 0 then 1 else 0)
    && t.learned == r.learned + r.pileCount
  }

  // Equal apart from having been deleted meanwhile.
  predicate SameUnlessDeleted(r: Record, t: Record) {
    t == r || t == r.(deleted := true)
  }

  lemma ProcessMarked(r: Record, c: Readings)
    requires r == Marked(r) && Increasing(GUARDIAN_PERSIST_MIN_TIME, c)
    ensures Flushed(r, LearnAndPersist(r, c).0) && LearnAndPersist(r, c).1
    ensures LearnAndPersist(r, c).0.deleted == r.deleted
  {
  }

  predicate FlushInv(cache: seq<Record>, f: Flush) {
    && |f.done| + |f.queue| == |cache|
    && (forall i: nat | i < |f.queue| :: SameUnlessDeleted(Marked(cache[|f.done| + i]), f.queue[i]))
    && (forall i: nat | i < |f.done| :: f.done[i].deleted || Flushed(cache[i], f.done[i]))
  }

  lemma FlushTickDone(cache: seq<Record>, f: Flush, clocks: seq<Readings>, k: nat)
    requires FlushInv(cache, f) && k < |clocks| <= |f.queue| && Increasing(GUARDIAN_PERSIST_MIN_TIME, clocks[k])
    ensures var r := TickPrefix(f.queue, clocks)[k]; r.deleted || Flushed(cache[|f.done| + k], r)
  {
    hide LearnAndPersist, Flushed;
    if !f.queue[k].deleted {
      ProcessMarked(f.queue[k], clocks[k]);
      FlushedFromMarked(cache[|f.done| + k], f.queue[k], Processed(f.queue[k], clocks[k]));
    }
  }

  lemma FlushTickQueue(cache: seq<Record>, f: Flush, k: nat, i: nat)
    requires FlushInv(cache, f) && k + i < |f.queue|
    ensures SameUnlessDeleted(Marked(cache[|f.done| + k + i]), f.queue[k..][i])
  {
    hide Flushed, SameUnlessDeleted, Marked;
    assert f.queue[k..][i] == f.queue[k + i];
  }

  lemma FlushTickInv(cache: seq<Record>, f: Flush, clocks: seq<Readings>)
    requires FlushInv(cache, f) && FlushEnabled(f, Tick(clocks))
    ensures FlushInv(cache, FlushNext(f, Tick(clocks)))
  {
    assert |clocks| <= |f.queue|;
    hide LearnAndPersist, Flushed, TickStops, Processed, SameUnlessDeleted, Increasing, Marked;
    var g := FlushNext(f, Tick(clocks));
    forall i: nat | i < |g.done| ensures g.done[i].deleted || Flushed(cache[i], g.done[i]) {
      if i >= |f.done| {
        assert clocks[i - |f.done|] in clocks;
        FlushTickDone(cache, f, clocks, i - |f.done|);
      }
    }
    forall i: nat | i < |g.queue| ensures SameUnlessDeleted(Marked(cache[|g.done| + i]), g.queue[i]) {
      FlushTickQueue(cache, f, |clocks|, i);
    }
  }

  lemma FlushDeleteInv(cache: seq<Record>, f: Flush, i: nat)
    requires FlushInv(cache, f) && FlushEnabled(f, Delete(i))
    ensures FlushInv(cache, FlushNext(f, Delete(i)))
  {
    hide Flushed;
  }

  lemma FlushStepInv(cache: seq<Record>, f: Flush, e: FlushEvent)
    requires FlushInv(cache, f) && FlushEnabled(f, e)
    ensures FlushInv(cache, FlushNext(f, e))
  {
    match e
    case Tick(clocks) => FlushTickInv(cache, f, clocks);
    case Delete(i) => FlushDeleteInv(cache, f, i);
  }

  lemma FlushedFromMarked(r: Record, m: Record, t: Record)
    requires m == Marked(r) && Flushed(m, t)
    ensures Flushed(r, t)
  {
  }

  predicate IsFlushRun(f: Flush, run: seq<FlushEvent>)
    decreases |run|
  {
    run == [] || (FlushEnabled(f, run[0]) && IsFlushRun(FlushNext(f, run[0]), run[1..]))
  }

  function FlushAfter(f: Flush, run: seq<FlushEvent>): Flush
    requires IsFlushRun(f, run)
    decreases |run|
  {
    if run == [] then f else FlushAfter(FlushNext(f, run[0]), run[1..])
  }

  function Ticks(run: seq<FlushEvent>): nat {
    if run == [] then 0 else (if run[0].Tick? then 1 else 0) + Ticks(run[1..])
  }

  lemma {:induction false} FlushRunInv(cache: seq<Record>, f: Flush, run: seq<FlushEvent>)
    requires FlushInv(cache, f) && IsFlushRun(f, run)
    ensures FlushInv(cache, FlushAfter(f, run))
    ensures 11 * Ticks(run) <= |f.queue| + 10
    ensures FlushAfter(f, run).queue != [] ==> |FlushAfter(f, run).queue| + 11 * Ticks(run) <= |f.queue|
    decreases |run|
  {
    if run != [] {
      var g := FlushNext(f, run[0]);
      FlushStepInv(cache, f, run[0]);
      hide FlushInv;
      FlushRunInv(cache, g, run[1..]);
      if run[0].Tick? && g.queue == [] { NoTickWhenEmpty(g, run[1..]); }
    }
  }

  // The loop stops when the queue is empty.
  lemma {:induction false} NoTickWhenEmpty(f: Flush, run: seq<FlushEvent>)
    requires f.queue == [] && IsFlushRun(f, run)
    ensures Ticks(run) == 0 && FlushAfter(f, run).queue == []
    decreases |run|
  {
    if run != [] { NoTickWhenEmpty(FlushNext(f, run[0]), run[1..]); }
  }

  // The shutdown flush of a cache of n records ends within ceil(n/11) ticks, whatever is
  // deleted meanwhile. Then every record that is not deleted has an empty pile, and a persist
  // was started for it exactly when its pile was not empty at the flush.
  lemma ShutdownFlush(cache: seq<Record>, run: seq<FlushEvent>)
    requires IsFlushRun(FlushStart(cache), run)
    ensures var t := FlushAfter(FlushStart(cache), run);
      && Ticks(run) <= (|cache| + 10) / 11
      && (Ticks(run) == (|cache| + 10) / 11 ==> t.queue == [])
      && (t.queue == [] ==>
            |t.done| == |cache| && forall i: nat | i < |cache| :: t.done[i].deleted || Flushed(cache[i], t.done[i]))
  {
    FlushRunInv(cache, FlushStart(cache), run);
  }

  // "Persist all changed records" is not what happens: a record that learned its pile earlier
  // and was not persisted since, is not persisted by the flush either.
  lemma FlushSkipsLearnedRecord(c: Readings)
    requires Increasing(GUARDIAN_PERSIST_MIN_TIME, c)
    ensures var r := Record(true, 5, 0, 2 * SECOND, SECOND, 1, 2, 2, false, 5, 5);
      r.guardianLastPersist < r.pileLastLearn
      && LearnAndPersist(Marked(r), c).0.persistCounter == r.persistCounter
  {
  }
}
