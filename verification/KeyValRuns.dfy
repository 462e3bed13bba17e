// keyval.go over many visits and calls: how many keys are known, what later learning takes away,
// and what the order of the visits decides.
module KeyValRuns {
  import opened Bits
  import opened KeyVal
  import opened Wrappers
  import Limit
  import Scanner
  import SV = SimpleVal

  // ---------- How many keys are known ----------

  // The slots that hold a key.
  function Taken(table: seq<Slot>): nat {
    if table == [] then 0
    else Taken(table[..|table| - 1]) + if table[|table| - 1].key == "" then 0 else 1
  }

  lemma {:induction false} TakenIsKeys(table: seq<Slot>)
    requires DistinctKeys(table)
    ensures |Keys(table)| == Taken(table)
  {
    if table == [] {
      NoKeys(table);
    } else {
      var n := |table| - 1;
      assert table == table[..n] + [table[n]];
      KeysSnoc(table[..n], table[n]);
      DistinctPart(table, n);
      hide Keys, DistinctKeys;
      TakenIsKeys(table[..n]);
    }
  }

  lemma DistinctPart(table: seq<Slot>, n: nat)
    requires DistinctKeys(table) && n <= |table|
    ensures DistinctKeys(table[..n])
  {
  }

  lemma {:induction false} AllTaken(table: seq<Slot>)
    ensures Taken(table) <= |table|
    ensures Taken(table) == |table| <==> forall i | 0 <= i < |table| :: table[i].key != ""
  {
    if table != [] { AllTaken(table[..|table| - 1]); }
  }

  lemma KeysSnoc(table: seq<Slot>, slot: Slot)
    requires DistinctKeys(table + [slot])
    ensures Keys(table + [slot]) == Keys(table) + ({slot.key} - {""}) && slot.key !in Keys(table)
  {
    var all := table + [slot];
    assert all[|table|] == slot;
    forall i | 0 <= i < |table| ensures all[i] == table[i] {}
    forall k | k in Keys(table) ensures k in Keys(all) && k != slot.key {
      var i :| 0 <= i < |table| && table[i].key == k && k != "";
      assert all[i].key == k;
    }
  }

  // Over any run of Learn calls at most eight keys are known, and eight exactly when the empty key
  // is one of them and no slot is free.
  lemma KnownKeys(calls: seq<Call>)
    requires forall i | 0 <= i < |calls| :: CallOk(calls[i])
    ensures var s := RunOf(calls);
      && |s.vals.Keys| <= 8
      && (|s.vals.Keys| == 8 <==> "" in s.vals && forall i | 0 <= i < |s.table| :: s.table[i].key != "")
  {
    hide RunOf, Sorted, Largest;
    TableIsTopSeven(calls);
    var s := RunOf(calls);
    TakenIsKeys(s.table);
    AllTaken(s.table);
    if "" in s.vals {
      assert s.vals.Keys == Keys(s.table) + {""};
    } else {
      assert s.vals.Keys == Keys(s.table);
    }
  }

  // No call brings the empty key.
  predicate Named(calls: seq<Call>) {
    forall i | 0 <= i < |calls| :: "" !in calls[i].pile
  }

  lemma {:induction false} EmptyKeyStaysOut(s: State, pile: Pile, order: seq<string>)
    requires TableOk(s) && (forall k | k in order :: k in pile) && "" !in pile && "" !in s.vals
    ensures "" !in LearnOver(s, pile, order).vals
    decreases |order|
  {
    hide LearnKey;
    if order != [] {
      LearnKeyKeepsTable(s, order[0], pile[order[0]]);
      EmptyKeyKnown(s, order[0], pile[order[0]]);
      EmptyKeyStaysOut(LearnKey(s, order[0], pile[order[0]]), pile, order[1..]);
    }
  }

  lemma {:induction false} EmptyKeyStaysUnknown(calls: seq<Call>)
    requires (forall i | 0 <= i < |calls| :: CallOk(calls[i])) && Named(calls)
    ensures "" !in RunOf(calls).vals
  {
    hide LearnOver;
    if calls != [] {
      var n := |calls| - 1;
      EmptyKeyStaysUnknown(calls[..n]);
      assert CallOk(calls[n]) && "" !in calls[n].pile;
      EmptyKeyStaysOut(RunOf(calls[..n]), calls[n].pile, calls[n].order);
    }
  }

  // Without the empty key the cap of seven holds over any run.
  lemma SevenKeys(calls: seq<Call>)
    requires (forall i | 0 <= i < |calls| :: CallOk(calls[i])) && Named(calls)
    ensures |RunOf(calls).vals.Keys| <= MAX_KEYS_LEARNED
  {
    hide RunOf;
    EmptyKeyStaysUnknown(calls);
    KnownKeys(calls);
  }

  // One visit keeps the cap exactly unless it admits a new key although seven are known and the
  // lowest slot has no key to evict.
  lemma CapKept(s: State, key: string, pile: SV.Pile)
    requires TableOk(s) && SlotsAreKeys(s) && |s.vals.Keys| <= MAX_KEYS_LEARNED
    ensures |LearnKey(s, key, pile).vals.Keys| <= MAX_KEYS_LEARNED <==>
            || key in s.vals || NewScore(pile) <= s.table[0].score
            || s.table[0].key != "" || |s.vals.Keys| < MAX_KEYS_LEARNED
  {
    LearnKeyTable(s, key, pile);
    hide LearnKey, NewScore, SetScore, Keys;
    var lowest, keys := s.table[0].key, s.vals.Keys;
    KeyOfSlot(s.table, 0);
    if key !in s.vals && FindScoreIndex(s.table, NewScore(pile)) >= 0 {
      if lowest == "" {
        assert keys + {key} - ({lowest} - {""}) == keys + {key};
      } else {
        assert lowest in keys && keys + {key} - ({lowest} - {""}) == keys - {lowest} + {key};
      }
    }
  }

  // ---------- Filling the table ----------

  // Slots from n on score at least hi, those below n less.
  predicate SplitAt(table: seq<Slot>, n: nat, hi: Word) {
    && n <= |table|
    && (forall i | 0 <= i < n :: table[i].score < hi)
    && (forall i | n <= i < |table| :: table[i].score >= hi)
  }

  function KeysOf(order: seq<string>): set<string> {
    set k | k in order
  }

  // One new key that scores hi takes the place of slot 0.
  lemma FillOne(s: State, key: string, pile: SV.Pile, n: nat, hi: Word)
    requires TableOk(s) && SplitAt(s.table, n, hi) && n > 0 && key !in s.vals && NewScore(pile) == hi
    ensures var t := LearnKey(s, key, pile);
      && TableOk(t) && SplitAt(t.table, n - 1, hi)
      && t.table == s.table[1..n] + [Slot(hi, key)] + s.table[n..]
      && t.vals.Keys == s.vals.Keys + {key} - ({s.table[0].key} - {""})
  {
    LearnKeyTable(s, key, pile);
    LearnKeyKeepsTable(s, key, pile);
    hide LearnKey, NewScore, TableOk, SplitAt, SetScore, FindScoreIndex;
    InsertSplit(s.table, n, Slot(hi, key));
  }

  lemma InsertSplit(table: seq<Slot>, n: nat, slot: Slot)
    requires SplitAt(table, n, slot.score) && n > 0
    ensures FindScoreIndex(table, slot.score) == n - 1
    ensures SetScore(table, n - 1, slot) == table[1..n] + [slot] + table[n..]
    ensures SplitAt(SetScore(table, n - 1, slot), n - 1, slot.score)
  {
    SetScoreAt(table, n - 1, slot);
    var index := FindScoreIndex(table, slot.score);
    assert n < |table| ==> table[n].score >= slot.score;
    hide FindScoreIndex;
    assert index == n - 1;
  }

  // So as many new keys as there are lower slots fill the table with their score,
  lemma {:induction false} FillSlots(s: State, pile: Pile, order: seq<string>, n: nat, hi: Word)
    requires TableOk(s) && SplitAt(s.table, n, hi) && |order| <= n
    requires forall k | k in order :: k in pile && k !in s.vals && NewScore(pile[k]) == hi
    requires forall i, j | 0 <= i < j < |order| :: order[i] != order[j]
    ensures var t := LearnOver(s, pile, order);
      && n <= |t.table| == |s.table|
      && (forall i | n - |order| <= i < n :: t.table[i].score == hi)
      && (forall i | n <= i < |s.table| :: t.table[i] == s.table[i])
    decreases |order|
  {
    hide LearnKey, NewScore, TableOk;
    if order != [] {
      var key, rest := order[0], order[1..];
      var t := LearnKey(s, key, pile[key]);
      FillOne(s, key, pile[key], n, hi);
      assert order == [key] + rest;
      hide SplitAt;
      FillSlots(t, pile, rest, n - 1, hi);
    }
  }

  // and evict the keys of these slots.
  lemma {:induction false} Fill(s: State, pile: Pile, order: seq<string>, n: nat, hi: Word)
    requires TableOk(s) && SplitAt(s.table, n, hi) && |order| <= n
    requires forall k | k in order :: k in pile && k !in s.vals && NewScore(pile[k]) == hi
    requires forall i, j | 0 <= i < j < |order| :: order[i] != order[j]
    ensures |order| <= |s.table|
    ensures LearnOver(s, pile, order).vals.Keys == s.vals.Keys + KeysOf(order) - Keys(s.table[..|order|])
    decreases |order|
  {
    hide LearnKey, NewScore, TableOk, KeysOf, Keys;
    SplitSize(s, n, hi);
    if order == [] {
      NothingFilled(s.table);
    } else {
      var key, rest := order[0], order[1..];
      var t := LearnKey(s, key, pile[key]);
      FillOne(s, key, pile[key], n, hi);
      assert order == [key] + rest;
      hide SplitAt;
      assert t.table[..|rest|] == s.table[1..|order|];
      Fill(t, pile, rest, n - 1, hi);
      FillKeys(s, t, order);
    }
  }

  lemma NothingFilled(table: seq<Slot>)
    ensures Keys(table[..0]) == {} && KeysOf([]) == {}
  {
  }

  lemma SplitSize(s: State, n: nat, hi: Word)
    requires SplitAt(s.table, n, hi)
    ensures n <= |s.table|
  {
  }

  lemma FillKeys(s: State, t: State, order: seq<string>)
    requires TableOk(s) && order != [] && |order| <= |s.table| && |order| - 1 <= |t.table|
    requires forall k | k in order :: k !in s.vals
    requires t.table[..|order| - 1] == s.table[1..|order|]
    requires t.vals.Keys == s.vals.Keys + {order[0]} - ({s.table[0].key} - {""})
    ensures t.vals.Keys + KeysOf(order[1..]) - Keys(t.table[..|order| - 1])
         == s.vals.Keys + KeysOf(order) - Keys(s.table[..|order|])
  {
    var low, n := s.table[0].key, |order|;
    assert KeysOf(order) == {order[0]} + KeysOf(order[1..]) by { assert order == [order[0]] + order[1..]; }
    KeysHead(s.table[..n]);
    assert s.table[..n][1..] == s.table[1..n];
    KeysPart(s.table, n);
    hide Keys;
    assert forall k | k in KeysOf(order) :: k !in Keys(s.table[..n]);
  }

  lemma KeysHead(table: seq<Slot>)
    requires table != []
    ensures Keys(table) == Keys(table[1..]) + ({table[0].key} - {""})
  {
    forall k | k in Keys(table[1..]) ensures k in Keys(table) {
      var i :| 0 <= i < |table| - 1 && table[1..][i].key == k && k != "";
      assert table[i + 1].key == k;
    }
    forall k | k in Keys(table) ensures k in Keys(table[1..]) + ({table[0].key} - {""}) {
      var i :| 0 <= i < |table| && table[i].key == k && k != "";
      if i > 0 { assert table[1..][i - 1].key == k; }
    }
  }

  lemma KeysPart(table: seq<Slot>, n: nat)
    requires n <= |table|
    ensures Keys(table[..n]) <= Keys(table)
  {
    forall k | k in Keys(table[..n]) ensures k in Keys(table) {
      var i :| 0 <= i < n && table[..n][i].key == k && k != "";
      assert table[i].key == k;
    }
  }

  // ---------- What later learning takes away ----------

  // A visit to key k that does not make a new rule which rejects v.
  predicate Spared(s: State, k: string, pile: SV.Pile, v: Scanner.Profile)
    requires TableOk(s)
  {
    k in s.vals || NewScore(pile) <= s.table[0].score || SV.Accepts(SV.Learned(SV.EMPTY_CONFIG, pile), v)
  }

  // A visit takes the approval of v under k away exactly when it admits k, until now one of the
  // other keys, with a new rule that rejects v.
  lemma VisitKeepsExactly(s: State, key: string, pile: SV.Pile, k: string, v: Scanner.Profile)
    requires TableOk(s) && KeyAccepted(s, k, v)
    ensures KeyAccepted(LearnKey(s, key, pile), k, v) <==> k != key || Spared(s, k, pile, v)
  {
    hide SV.Learned, SV.Accepts;
    if k != key {
      LearnKeyPreserves(s, key, pile, k, v);
    } else if key in s.vals {
      SV.LearnedGrows(s.vals[key], pile);
      SV.LeqIsInclusion(s.vals[key], SV.Learned(s.vals[key], pile));
    } else {
      OthersGrow(s, key, pile, k, v);
      RuleOfNew(s, key, pile);
    }
  }

  lemma RuleOfNew(s: State, key: string, pile: SV.Pile)
    requires TableOk(s) && key !in s.vals
    ensures var t := LearnKey(s, key, pile);
      if NewScore(pile) > s.table[0].score then key in t.vals && t.vals[key] == SV.Learned(SV.EMPTY_CONFIG, pile)
      else key !in t.vals
  {
    hide SV.Learned, SV.Fused, SV.Score, SetScore;
    KeyOfSlot(s.table, 0);
  }

  // A rule changes only when its own key is visited.
  lemma {:induction false} RuleStays(s: State, pile: Pile, order: seq<string>, k: string)
    requires TableOk(s) && (forall j | j in order :: j in pile) && k !in order && k in s.vals
    ensures var t := LearnOver(s, pile, order); k in t.vals ==> t.vals[k] == s.vals[k]
    decreases |order|
  {
    hide LearnKey;
    if order != [] {
      var t := LearnKey(s, order[0], pile[order[0]]);
      LearnKeyKeepsTable(s, order[0], pile[order[0]]);
      RuleOfOther(s, order[0], pile[order[0]], k);
      if k in t.vals {
        RuleStays(t, pile, order[1..], k);
      } else {
        StaysUnknown(t, pile, order[1..], k);
      }
    }
  }

  lemma RuleOfOther(s: State, key: string, pile: SV.Pile, k: string)
    requires TableOk(s) && k != key && k in s.vals
    ensures var t := LearnKey(s, key, pile); k in t.vals ==> t.vals[k] == s.vals[k]
  {
    hide SV.Learned, SV.Fused, SV.Score, SetScore;
    KeyOfSlot(s.table, 0);
  }

  // One Learn call takes the approval of v under k away exactly when the visit to k admits it with
  // a new rule that rejects v, and the call does not evict that rule again.
  lemma {:induction false} LearnKeepsExactly(s: State, pile: Pile, order: seq<string>, k: string, v: Scanner.Profile)
    requires TableOk(s) && (forall j | j in order :: j in pile) && KeyAccepted(s, k, v)
    requires forall i, j | 0 <= i < j < |order| :: order[i] != order[j]
    ensures KeyAccepted(LearnOver(s, pile, order), k, v) <==>
            (|| k !in order || Spared(BeforeVisit(s, pile, order, k), k, pile[k], v)
             || k !in LearnOver(s, pile, order).vals)
    decreases |order|
  {
    hide LearnKey, KeyAccepted, Spared;
    if k !in order {
      LearnOverPreserves(s, pile, order, k, v);
    } else if order[0] == k {
      FirstVisitKeeps(s, pile, order, v);
    } else {
      LearnKeyKeepsTable(s, order[0], pile[order[0]]);
      VisitKeepsExactly(s, order[0], pile[order[0]], k, v);
      LearnKeepsExactly(LearnKey(s, order[0], pile[order[0]]), pile, order[1..], k, v);
    }
  }

  lemma FirstVisitKeeps(s: State, pile: Pile, order: seq<string>, v: Scanner.Profile)
    requires TableOk(s) && (forall j | j in order :: j in pile) && order != [] && KeyAccepted(s, order[0], v)
    requires forall i, j | 0 <= i < j < |order| :: order[i] != order[j]
    ensures KeyAccepted(LearnOver(s, pile, order), order[0], v) <==>
            Spared(s, order[0], pile[order[0]], v) || order[0] !in LearnOver(s, pile, order).vals
  {
    hide LearnKey, NewScore, SV.Accepts, SV.Learned;
    var k := order[0];
    var t := LearnKey(s, k, pile[k]);
    LearnKeyKeepsTable(s, k, pile[k]);
    VisitKeepsExactly(s, k, pile[k], k, v);
    if Spared(s, k, pile[k], v) {
      LearnOverPreserves(t, pile, order[1..], k, v);
    } else {
      RuleOfNew(s, k, pile[k]);
      RuleStays(t, pile, order[1..], k);
      OthersGrowOver(s, pile, order, k, v);
    }
  }

  // ---------- What no order takes away ----------

  // Key k has a slot that n visits to other keys cannot bring out of the table.
  predicate High(s: State, k: string, n: nat) {
    exists i :: n <= i < |s.table| && s.table[i].key == k && k != ""
  }

  lemma StaysHigh(s: State, key: string, pile: SV.Pile, k: string, n: nat)
    requires TableOk(s) && key != k && High(s, k, n) && n > 0
    ensures High(LearnKey(s, key, pile), k, n - 1)
  {
    LearnKeyTable(s, key, pile);
    hide LearnKey, NewScore, SetScore, Keys;
    var t := LearnKey(s, key, pile);
    var i :| n <= i < |s.table| && s.table[i].key == k;
    var index := FindScoreIndex(s.table, NewScore(pile));
    if key in s.vals || index < 0 {
      assert t.table[i].key == k;
    } else {
      SetScoreAt(s.table, index, Slot(NewScore(pile), key));
      if i <= index { assert t.table[i - 1].key == k; } else { assert t.table[i].key == k; }
    }
  }

  lemma HighIsKnown(s: State, k: string, n: nat)
    requires TableOk(s) && High(s, k, n)
    ensures k in s.vals
  {
    var i :| n <= i < |s.table| && s.table[i].key == k;
    KeyOfSlot(s.table, i);
  }

  lemma {:induction false} NotEvicted(s: State, pile: Pile, order: seq<string>, k: string)
    requires TableOk(s) && (forall j | j in order :: j in pile) && k in order
    requires High(s, k, |order| - 1)
    ensures k in BeforeVisit(s, pile, order, k).vals
    decreases |order|
  {
    hide LearnKey, High, TableOk;
    if order[0] == k {
      HighIsKnown(s, k, |order| - 1);
    } else {
      LearnKeyKeepsTable(s, order[0], pile[order[0]]);
      assert order[1..] != [] by { assert order == [order[0]] + order[1..]; }
      StaysHigh(s, order[0], pile[order[0]], k, |order| - 1);
      NotEvicted(LearnKey(s, order[0], pile[order[0]]), pile, order[1..], k);
    }
  }

  lemma {:induction false} VisitsClimb(s: State, pile: Pile, order: seq<string>, k: string)
    requires TableOk(s) && (forall j | j in order :: j in pile)
    ensures s.table[0].score <= BeforeVisit(s, pile, order, k).table[0].score
    decreases |order|
  {
    hide LearnKey;
    if order != [] && order[0] != k {
      LearnKeyKeepsTable(s, order[0], pile[order[0]]);
      SlotsClimb(s, order[0], pile[order[0]]);
      VisitsClimb(LearnKey(s, order[0], pile[order[0]]), pile, order[1..], k);
    }
  }

  // Before the call: the pile does not have the key, or its samples alone cover v, or do not score
  // above the lowest slot, or the key is known and too high to be evicted before its turn.
  predicate SparedInAnyOrder(s: State, pile: Pile, k: string, v: Scanner.Profile)
    requires TableOk(s)
  {
    k in pile ==>
      || SV.Accepts(SV.Learned(SV.EMPTY_CONFIG, pile[k]), v)
      || NewScore(pile[k]) <= s.table[0].score
      || High(s, k, |pile| - 1)
  }

  lemma SparedWhenVisited(s: State, pile: Pile, order: seq<string>, k: string, v: Scanner.Profile)
    requires TableOk(s) && IsOrder(order, pile.Keys) && k in pile && SparedInAnyOrder(s, pile, k, v)
    ensures Spared(BeforeVisit(s, pile, order, k), k, pile[k], v)
  {
    hide NewScore, SV.Accepts, SV.Learned, High, BeforeVisit, TableOk;
    VisitsClimb(s, pile, order, k);
    if High(s, k, |pile| - 1) {
      OrderLength(order, pile.Keys);
      assert |pile| == |pile.Keys|;
      NotEvicted(s, pile, order, k);
    }
  }

  // Then the call takes nothing away, whatever the order.
  lemma LearnKeepsInAnyOrder(s: State, pile: Pile, order: seq<string>, k: string, v: Scanner.Profile)
    requires TableOk(s) && IsOrder(order, pile.Keys) && KeyAccepted(s, k, v) && SparedInAnyOrder(s, pile, k, v)
    ensures KeyAccepted(LearnOver(s, pile, order), k, v)
  {
    hide KeyAccepted, SparedInAnyOrder, Spared, BeforeVisit, LearnOver;
    LearnKeepsExactly(s, pile, order, k, v);
    if k in pile { SparedWhenVisited(s, pile, order, k, v); }
  }

  // Over a run, what was approved once stays approved as long as every later call spares it.
  lemma {:induction false} RunKeeps(calls: seq<Call>, n: nat, k: string, v: Scanner.Profile)
    requires (forall i | 0 <= i < |calls| :: CallOk(calls[i])) && n <= |calls|
    requires KeyAccepted(RunOf(calls[..n]), k, v)
    requires forall i | n <= i < |calls| :: SparedInAnyOrder(RunOf(calls[..i]), calls[i].pile, k, v)
    ensures KeyAccepted(RunOf(calls), k, v)
    decreases |calls|
  {
    hide KeyAccepted, SparedInAnyOrder, LearnOver;
    if n == |calls| {
      assert calls[..n] == calls;
    } else {
      var m := |calls| - 1;
      forall i | 0 <= i <= m ensures calls[..m][..i] == calls[..i] {}
      RunKeeps(calls[..m], n, k, v);
      assert CallOk(calls[m]);
      LearnKeepsInAnyOrder(RunOf(calls[..m]), calls[m].pile, calls[m].order, k, v);
    }
  }

  // ---------- When some order drops the empty key ----------

  // The scores of new keys.
  ghost function ScoresOf(pile: Pile, keys: set<string>): multiset<Word>
    requires keys <= pile.Keys
  {
    if keys == {} then multiset{}
    else
      var k :| k in keys;
      multiset{NewScore(pile[k])} + ScoresOf(pile, keys - {k})
  }

  lemma {:induction false} ScoresWithout(pile: Pile, keys: set<string>, k: string)
    requires keys <= pile.Keys && k in keys
    ensures ScoresOf(pile, keys) == multiset{NewScore(pile[k])} + ScoresOf(pile, keys - {k})
  {
    hide NewScore;
    var l :| l in keys && ScoresOf(pile, keys) == multiset{NewScore(pile[l])} + ScoresOf(pile, keys - {l});
    if l != k {
      ScoresWithout(pile, keys - {l}, k);
      ScoresWithout(pile, keys - {k}, l);
      assert keys - {l} - {k} == keys - {k} - {l};
    }
  }

  // As long as the keys are new, what they offer does not depend on the order.
  lemma {:induction false} OffersOfNew(s: State, pile: Pile, order: seq<string>, keys: set<string>)
    requires TableOk(s) && IsOrder(order, keys) && keys <= pile.Keys && keys !! s.vals.Keys
    ensures multiset(Offers(s, pile, order)) == ScoresOf(pile, keys)
    decreases |order|
  {
    hide LearnKey, NewScore, TableOk;
    if order == [] {
      assert keys == {};
    } else {
      var k, rest := order[0], keys - {order[0]};
      WithoutFirst(order, keys);
      ScoresWithout(pile, keys, k);
      LearnKeyKeepsTable(s, k, pile[k]);
      NewStayNew(s, k, pile[k], rest);
      OffersOfNew(LearnKey(s, k, pile[k]), pile, order[1..], rest);
      var more := Offers(LearnKey(s, k, pile[k]), pile, order[1..]);
      assert Offers(s, pile, order) == [NewScore(pile[k])] + more;
    }
  }

  lemma NewStayNew(s: State, key: string, pile: SV.Pile, keys: set<string>)
    requires TableOk(s) && key !in keys && keys !! s.vals.Keys
    ensures keys !! LearnKey(s, key, pile).vals.Keys
  {
    LearnKeyTable(s, key, pile);
    hide LearnKey, NewScore, SetScore;
  }

  // The seventh largest of some scores is unique.
  lemma SeventhLargest(kept: seq<Word>, dropped: multiset<Word>, kept': seq<Word>, dropped': multiset<Word>,
                       offered: multiset<Word>)
    requires Largest(kept, offered, dropped) && Largest(kept', offered, dropped')
    requires |kept| == |kept'| > 0
    requires forall i | 0 <= i < |kept'| :: kept'[0] <= kept'[i]
    ensures kept[0] >= kept'[0]
  {
    if multiset(kept') <= multiset(kept) {
      SameSize(multiset(kept'), multiset(kept));
      assert kept[0] in multiset(kept');
    } else {
      var x :| multiset(kept')[x] > multiset(kept)[x];
      assert x in multiset(kept') && offered[x] == multiset(kept)[x] + dropped[x] == multiset(kept')[x] + dropped'[x];
      assert x in dropped;
    }
  }

  lemma SameSize(a: multiset<Word>, b: multiset<Word>)
    requires a <= b && |a| == |b|
    ensures a == b
  {
    assert b == a + (b - a);
  }

  lemma {:induction false} BeforeLast(s: State, pile: Pile, order: seq<string>, k: string)
    requires TableOk(s) && (forall j | j in order :: j in pile) && k in pile && k !in order
    ensures forall j | j in order + [k] :: j in pile
    ensures BeforeVisit(s, pile, order + [k], k) == LearnOver(s, pile, order)
    decreases |order|
  {
    hide LearnKey;
    if order == [] {
      assert [] + [k] == [k];
    } else {
      assert (order + [k])[1..] == order[1..] + [k];
      LearnKeyKeepsTable(s, order[0], pile[order[0]]);
      BeforeLast(LearnKey(s, order[0], pile[order[0]]), pile, order[1..], k);
    }
  }

  lemma {:induction false} LearningClimbs(s: State, pile: Pile, order: seq<string>)
    requires TableOk(s) && (forall j | j in order :: j in pile)
    ensures s.table[0].score <= LearnOver(s, pile, order).table[0].score
    decreases |order|
  {
    hide LearnKey;
    if order != [] {
      LearnKeyKeepsTable(s, order[0], pile[order[0]]);
      SlotsClimb(s, order[0], pile[order[0]]);
      LearningClimbs(LearnKey(s, order[0], pile[order[0]]), pile, order[1..]);
    }
  }

  // The order without the visit to k.
  function Without(order: seq<string>, k: string): (r: seq<string>)
    ensures forall j :: j in r ==> j in order
  {
    if order == [] then []
    else if order[0] == k then order[1..]
    else [order[0]] + Without(order[1..], k)
  }

  lemma {:induction false} WithoutIsOrder(order: seq<string>, k: string, keys: set<string>)
    requires IsOrder(order, keys) && k in keys
    ensures IsOrder(Without(order, k), keys - {k})
  {
    WithoutFirst(order, keys);
    if order[0] != k {
      WithoutIsOrder(order[1..], k, keys - {order[0]});
      var r := Without(order[1..], k);
      assert order[0] !in r;
      assert keys - {k} == (keys - {order[0]} - {k}) + {order[0]};
    }
  }

  lemma {:induction false} BeforeVisitBelow(s: State, pile: Pile, order: seq<string>, k: string)
    requires TableOk(s) && (forall j | j in order :: j in pile)
    ensures BeforeVisit(s, pile, order, k).table[0].score <= LearnOver(s, pile, Without(order, k)).table[0].score
    decreases |order|
  {
    hide LearnKey;
    if order != [] {
      if order[0] == k {
        LearningClimbs(s, pile, order[1..]);
      } else {
        LearnKeyKeepsTable(s, order[0], pile[order[0]]);
        BeforeVisitBelow(LearnKey(s, order[0], pile[order[0]]), pile, order[1..], k);
        var w := Without(order, k);
        assert w[1..] == Without(order[1..], k);
      }
    }
  }

  // Without the empty key the lowest slot ends up at the seventh largest of the slots and the
  // scores of the new keys.
  lemma LowestSlot(s: State, pile: Pile, order: seq<string>, kept: seq<Word>, dropped: multiset<Word>)
    requires TableOk(s) && SlotsAreKeys(s) && IsOrder(order, pile.Keys - {""}) && pile.Keys !! s.vals.Keys
    requires |kept| == 7 && forall i | 0 <= i < 7 :: kept[0] <= kept[i]
    requires Largest(kept, multiset(Scores(s.table)) + ScoresOf(pile, pile.Keys - {""}), dropped)
    ensures LearnOver(s, pile, order).table[0].score == kept[0]
  {
    hide Largest, LearnOver, Offers, SlotsAreKeys, ScoresOf;
    var t := LearnOver(s, pile, order);
    StartsLargest(s);
    var dropped' := LearnTopSeven(s, pile, order, multiset(Scores(s.table)), multiset{});
    OffersOfNew(s, pile, order, pile.Keys - {""});
    LowestScore(t);
    LowestScore(s);
    var offered := multiset(Scores(s.table)) + ScoresOf(pile, pile.Keys - {""});
    SeventhLargest(kept, dropped, Scores(t.table), dropped', offered);
    SeventhLargest(Scores(t.table), dropped', kept, dropped, offered);
  }

  lemma StartsLargest(s: State)
    ensures Largest(Scores(s.table), multiset(Scores(s.table)), multiset{})
  {
  }

  lemma LowestScore(s: State)
    requires TableOk(s)
    ensures var scores := Scores(s.table);
      |scores| == 7 && scores[0] == s.table[0].score && forall i | 0 <= i < 7 :: scores[0] <= scores[i]
  {
  }

  // When no key of the pile is known, some order drops the empty key exactly when it does not
  // score above the seventh largest of the slots and the scores of the other keys.
  lemma EmptyKeyDroppedSomewhere(s: State, pile: Pile, kept: seq<Word>, dropped: multiset<Word>)
    requires TableOk(s) && SlotsAreKeys(s) && "" in pile && pile.Keys !! s.vals.Keys
    requires |kept| == 7 && forall i | 0 <= i < 7 :: kept[0] <= kept[i]
    requires Largest(kept, multiset(Scores(s.table)) + ScoresOf(pile, pile.Keys - {""}), dropped)
    ensures (exists order | IsOrder(order, pile.Keys) :: DroppedIn(s, pile, order))
            <==> NewScore(pile[""]) <= kept[0]
  {
    hide NewScore, TableOk, SlotsAreKeys, Largest, ScoresOf, DroppedIn;
    forall order | IsOrder(order, pile.Keys) ensures DroppedIn(s, pile, order) ==> NewScore(pile[""]) <= kept[0] {
      DroppedBelow(s, pile, order, kept, dropped);
    }
    var last := DroppedLast(s, pile, kept, dropped);
  }

  lemma DroppedBelow(s: State, pile: Pile, order: seq<string>, kept: seq<Word>, dropped: multiset<Word>)
    requires TableOk(s) && SlotsAreKeys(s) && "" in pile && pile.Keys !! s.vals.Keys
    requires |kept| == 7 && forall i | 0 <= i < 7 :: kept[0] <= kept[i]
    requires Largest(kept, multiset(Scores(s.table)) + ScoresOf(pile, pile.Keys - {""}), dropped)
    requires IsOrder(order, pile.Keys)
    ensures DroppedIn(s, pile, order) ==> NewScore(pile[""]) <= kept[0]
  {
    hide NewScore, SlotsAreKeys, Largest, ScoresOf, LearnOver, BeforeVisit, Scores;
    WithoutIsOrder(order, "", pile.Keys);
    BeforeVisitBelow(s, pile, order, "");
    LowestSlot(s, pile, Without(order, ""), kept, dropped);
  }

  lemma DroppedLast(s: State, pile: Pile, kept: seq<Word>, dropped: multiset<Word>) returns (order: seq<string>)
    requires TableOk(s) && SlotsAreKeys(s) && "" in pile && pile.Keys !! s.vals.Keys
    requires |kept| == 7 && forall i | 0 <= i < 7 :: kept[0] <= kept[i]
    requires Largest(kept, multiset(Scores(s.table)) + ScoresOf(pile, pile.Keys - {""}), dropped)
    ensures IsOrder(order, pile.Keys)
    ensures DroppedIn(s, pile, order) <==> NewScore(pile[""]) <= kept[0]
  {
    hide NewScore, SlotsAreKeys, Largest, ScoresOf, LearnOver, BeforeVisit, Scores;
    var others := SomeOrder(pile.Keys - {""});
    order := others + [""];
    LowestSlot(s, pile, others, kept, dropped);
    BeforeLast(s, pile, others, "");
    BeforeVisitSlots(s, pile, order);
  }

  // ---------- Prepare restores the table ----------

  // Preparing named keys that score, with a slot for each, gives every one of them a slot.
  lemma {:induction false} PrepareFills(s: State, order: seq<string>)
    requires TableOk(s) && Room(s.table, |order|)
    requires forall k | k in order :: k in s.vals && k != "" && k !in Keys(s.table) && SV.Score(s.vals[k]) > 0
    requires forall i, j | 0 <= i < j < |order| :: order[i] != order[j]
    ensures Keys(PrepareOver(s, order).table) == Keys(s.table) + KeysOf(order)
    decreases |order|
  {
    hide PrepareKey, SV.Score, Keys, TableOk;
    if order == [] {
      assert KeysOf(order) == {};
      SizeOf(s);
    } else {
      var k, rest := order[0], order[1..];
      assert order == [k] + rest && KeysOf(order) == {k} + KeysOf(rest);
      SizeOf(s);
      PrepareOne(s, k, |order|);
      assert forall j | j in rest :: j in order && j != k;
      PrepareFills(PrepareKey(s, k), rest);
    }
  }

  lemma PrepareOne(s: State, k: string, n: nat)
    requires TableOk(s) && Room(s.table, n) && n > 0
    requires k in s.vals && k != "" && k !in Keys(s.table) && SV.Score(s.vals[k]) > 0
    ensures var t := PrepareKey(s, k);
      TableOk(t) && t.vals == s.vals && Room(t.table, n - 1) && Keys(t.table) == Keys(s.table) + {k}
  {
    PrepareKeyKeepsTable(s, k);
    hide SV.Score, SetScore, Keys;
    var slot := Slot(SV.Score(s.vals[k]), k);
    var index := FindScoreIndex(s.table, slot.score);
    assert s.table[0] == FREE;
    assert index + 1 < |s.table| ==> s.table[index + 1] != FREE;
    SetScoreAt(s.table, index, slot);
    SetScoreKeys(s.table, index, slot);
    KeyOfSlot(s.table, 0);
    forall i | 0 <= i < n - 1 ensures SetScore(s.table, index, slot)[i] == FREE { assert s.table[i + 1] == FREE; }
    assert PrepareKey(s, k).table == SetScore(s.table, index, slot);
  }

  // A loaded config of at most seven named rules that score has, once prepared, exactly its known
  // keys in the table again, in any order of the rules.
  lemma PrepareRestores(s: State, order: seq<string>)
    requires (forall i | 0 <= i < |s.table| :: s.table[i] == FREE) && |s.table| == MAX_KEYS_LEARNED
    requires IsOrder(order, s.vals.Keys) && |s.vals.Keys| <= MAX_KEYS_LEARNED && "" !in s.vals
    requires forall k | k in s.vals :: SV.Score(s.vals[k]) > 0
    ensures TableOk(PrepareOver(s, order)) && SlotsAreKeys(PrepareOver(s, order))
  {
    hide SV.Score, PrepareOver;
    NoKeys(s.table);
    OrderLength(order, s.vals.Keys);
    PrepareEstablishesTable(s, order);
    PrepareFills(s, order);
    assert KeysOf(order) == s.vals.Keys;
  }

  // ---------- Concrete samples ----------

  // What one sample of a value leaves in a pile.
  function Sample(value: string): SV.Pile {
    SV.Added(SV.EMPTY_PILE, Scanner.ProfileOf(value))
  }

  // The rule learned from one value without special or unicode characters.
  lemma PlainRule(p: Scanner.Profile)
    requires p.flags == 0 && p.unicodeFlags == []
    ensures SV.Learned(SV.EMPTY_CONFIG, SV.Added(SV.EMPTY_PILE, p))
         == SV.Config(p.digits, p.letters, p.spaces, p.specialChars, p.nonReadables, p.unicodes, p.sequences, 0, [])
  {
    var pile := SV.Added(SV.EMPTY_PILE, p);
    assert pile == SV.Pile([p.digits], [p.letters], [p.spaces], [p.specialChars], [p.nonReadables], [p.unicodes],
                           [p.sequences], 0, []);
    hide Limit.Learned, SV.Added;
    OneSample(p.digits);
    OneSample(p.letters);
    OneSample(p.spaces);
    OneSample(p.specialChars);
    OneSample(p.nonReadables);
    OneSample(p.unicodes);
    OneSample(p.sequences);
  }

  lemma PlainScore(p: Scanner.Profile)
    requires p.flags == 0 && p.unicodeFlags == []
    ensures NewScore(SV.Added(SV.EMPTY_PILE, p))
         == 4 * (p.specialChars + p.nonReadables + p.sequences) + p.digits + p.letters + p.spaces + p.unicodes
  {
    PlainRule(p);
    hide SV.Learned, SV.Added;
    ScoreOfRule(SV.Learned(SV.EMPTY_CONFIG, SV.Added(SV.EMPTY_PILE, p)));
  }

  lemma ScoreOfRule(c: SV.Config)
    requires c.flags == 0 && c.unicodeFlags == []
    ensures SV.Score(c)
         == 4 * (c.specialChars + c.nonReadables + c.sequences) + c.digits + c.letters + c.spaces + c.unicodes
  {
    assert Ones(0) == 0;
  }

  lemma OneSample(v: Byte)
    ensures Limit.Learned(0, [v]) == v
  {
    Limit.LearnedIsMax(0, [v]);
    assert v in [v];
  }

  // All characters are letters, or all are digits.
  predicate Uniform(value: string, cls: Scanner.Class) {
    (cls == Scanner.Letter || cls == Scanner.Digit) && forall c | c in value :: Scanner.ClassOf(c) == cls
  }

  lemma {:induction false} UniformScan(value: string, cls: Scanner.Class)
    requires value != [] && Uniform(value, cls)
    ensures var letters, n := cls == Scanner.Letter, |value|;
      Scanner.ScanOf(value) == Scanner.Scan(
        Scanner.Counters(if letters then 0 else n, if letters then n else 0, 0, 0, 0, 0, 1, Some(cls)),
        0, [], Some(value[|value| - 1]))
  {
    var n := |value| - 1;
    var c, before := value[n], value[..n];
    assert c in value;
    if before == [] {
      assert Scanner.ScanOf(before) == Scanner.Scan(Scanner.Counters(0, 0, 0, 0, 0, 0, 0, None), 0, [], None);
    } else {
      assert before[n - 1] in value && forall d | d in before :: d in value;
      UniformScan(before, cls);
    }
    assert Scanner.ScanOf(value) == Scanner.Next(Scanner.ScanOf(before), c);
  }

  lemma UniformProfile(value: string, cls: Scanner.Class)
    requires 0 < |value| < 16 && Uniform(value, cls)
    ensures var letters, n := cls == Scanner.Letter, |value|;
      Scanner.ProfileOf(value)
      == Scanner.Profile(if letters then 0 else n, if letters then n else 0, 0, 0, 0, 0, 1, 0, [])
  {
    Scanner.ScanMeaning(value);
    UniformScan(value, cls);
    hide Scanner.Positions, Scanner.RunStarts, Scanner.FlagWord, Scanner.BlockFlags, Scanner.ScanOf;
  }

  // A short value of letters, or of digits, scores four for its one sequence and one for each
  // character.
  lemma UniformScore(value: string, cls: Scanner.Class)
    requires 0 < |value| < 16 && Uniform(value, cls)
    ensures NewScore(Sample(value)) == 4 + |value|
    ensures SV.Records(Sample(value), Scanner.ProfileOf(value))
    ensures var rule := SV.Learned(SV.EMPTY_CONFIG, Sample(value));
      if cls == Scanner.Letter then rule.digits == 0 else rule.digits == |value|
  {
    UniformProfile(value, cls);
    PlainRule(Scanner.ProfileOf(value));
    PlainScore(Scanner.ProfileOf(value));
    SV.AddedRecords(SV.EMPTY_PILE, Scanner.ProfileOf(value));
    hide SV.Learned, SV.Added, SV.Records, NewScore;
  }

  // ---------- Two runs ----------

  // A pile with one sample of the same value under each of the keys.
  function Samples(keys: seq<string>, value: string): Pile {
    map k | k in keys :: Sample(value)
  }

  lemma OneVisit(s: State, pile: Pile, key: string)
    requires TableOk(s) && pile.Keys == {key}
    ensures IsOrder([key], pile.Keys) && LearnOver(s, pile, [key]) == LearnKey(s, key, pile[key])
  {
    assert [key][1..] == [];
  }

  lemma EmptySplit(hi: Word)
    requires hi > 0
    ensures TableOk(EMPTY) && SplitAt(EMPTY.table, 7, hi) && Keys(EMPTY.table) == {}
  {
  }

  predicate Digits(value: string) {
    0 < |value| < 16 && Uniform(value, Scanner.Digit)
  }

  predicate Letters(value: string) {
    0 < |value| < 16 && Uniform(value, Scanner.Letter)
  }

  ghost predicate SevenKeysNamed(named: seq<string>) {
    |named| == 7 && forall i, j | 0 <= i < j < 7 :: named[i] != named[j]
  }

  // A call that brings one value under one key, and one that brings one value under seven keys.
  function OneKey(key: string, value: string): Call {
    Call(map[key := Sample(value)], [key])
  }

  function SevenOthers(named: seq<string>, value: string): Call {
    Call(Samples(named, value), named)
  }

  // A fresh config that learns one value under one key, such as "1".
  lemma FirstSample(key: string, low: string) returns (s: State)
    requires Digits(low)
    ensures CallOk(OneKey(key, low)) && s == RunOf([OneKey(key, low)])
    ensures s.vals.Keys == {key} && SplitAt(s.table, 7, 5 + |low|)
    ensures |s.table| == 7 && forall i | 0 <= i < 7 :: s.table[i].key == if i < 6 then "" else key
  {
    hide LearnKey, LearnOver, NewScore, Sample;
    var call := OneKey(key, low);
    UniformScore(low, Scanner.Digit);
    EmptySplit(4 + |low|);
    OneVisit(EMPTY, call.pile, key);
    FillOne(EMPTY, key, call.pile[key], 7, 4 + |low|);
    s := LearnKey(EMPTY, key, call.pile[key]);
    assert CallOk(call);
    OneCall(call);
  }

  // Seven new keys with a longer value, such as "11", evict what had a lower score.
  lemma SevenKeysIn(s: State, named: seq<string>, high: string)
    requires TableOk(s) && Digits(high) && SplitAt(s.table, 7, 4 + |high|) && SevenKeysNamed(named)
    requires forall k | k in named :: k !in s.vals
    ensures CallOk(SevenOthers(named, high))
    ensures var t := LearnOver(s, SevenOthers(named, high).pile, named);
      && t.vals.Keys == s.vals.Keys + KeysOf(named) - Keys(s.table)
      && (forall i | 0 <= i < |t.table| :: t.table[i].score == 4 + |high|)
      && |KeysOf(named)| == 7
  {
    SamplesOf(named, high);
    hide LearnOver, NewScore, Samples, SplitAt, Keys, TableOk, IsOrder, KeysOf;
    FillAll(s, Samples(named, high), named, 4 + |high|);
    Size(named);
  }

  lemma FillAll(s: State, pile: Pile, named: seq<string>, hi: Word)
    requires TableOk(s) && SplitAt(s.table, 7, hi) && SevenKeysNamed(named)
    requires forall k | k in named :: k in pile && k !in s.vals && NewScore(pile[k]) == hi
    ensures var t := LearnOver(s, pile, named);
      && t.vals.Keys == s.vals.Keys + KeysOf(named) - Keys(s.table)
      && (forall i | 0 <= i < |t.table| :: t.table[i].score == hi)
  {
    SizeOf(s);
    hide LearnOver, NewScore, SplitAt, Keys, TableOk, KeysOf;
    FillSlots(s, pile, named, 7, hi);
    Fill(s, pile, named, 7, hi);
    assert s.table[..7] == s.table;
  }

  lemma SamplesOf(named: seq<string>, value: string)
    requires SevenKeysNamed(named) && Digits(value)
    ensures IsOrder(named, Samples(named, value).Keys)
    ensures forall k | k in named :: k in Samples(named, value) && NewScore(Samples(named, value)[k]) == 4 + |value|
  {
    hide NewScore, Sample;
    UniformScore(value, Scanner.Digit);
  }

  // The empty key, admitted with a value, and then seven keys with a better one: eight are known.
  lemma EighthKey(named: seq<string>, low: string, high: string)
    requires SevenKeysNamed(named) && "" !in named && Digits(low) && Digits(high) && |low| < |high|
    ensures var calls := [OneKey("", low), SevenOthers(named, high)];
      (forall i | 0 <= i < |calls| :: CallOk(calls[i])) && |RunOf(calls).vals.Keys| == 8
  {
    hide LearnOver, OneKey, SevenOthers, CallOk, SplitAt, RunOf;
    var s := FirstSample("", low);
    SplitHigher(s.table, 5 + |low|, 4 + |high|);
    SevenKeysIn(s, named, high);
    OrderOf(named, high);
    TwoCalls(OneKey("", low), SevenOthers(named, high));
    NoKeys(s.table);
    assert {""} + KeysOf(named) - {} == {""} + KeysOf(named);
    assert |{""} + KeysOf(named)| == 1 + |KeysOf(named)|;
  }

  lemma SplitHigher(table: seq<Slot>, low: Word, high: Word)
    requires SplitAt(table, |table|, low) && low <= high
    ensures SplitAt(table, |table|, high)
  {
  }

  lemma OrderOf(named: seq<string>, high: string)
    ensures SevenOthers(named, high).order == named && forall k | k in named :: k in SevenOthers(named, high).pile
  {
    hide Sample;
  }

  // A key that is evicted and later admitted again starts a new rule: after learning "1" under it,
  // then seven keys with "11", then "abc" under it again, "1" is rejected.
  lemma RelearnedKeyForgets(key: string, named: seq<string>, low: string, high: string, other: string)
    requires key != "" && key !in named && SevenKeysNamed(named)
    requires Digits(low) && Digits(high) && Letters(other) && |low| < |high| < |other|
    ensures var calls := [OneKey(key, low), SevenOthers(named, high), OneKey(key, other)];
      && (forall i | 0 <= i < |calls| :: CallOk(calls[i]))
      && KeyAccepted(RunOf(calls[..1]), key, Scanner.ProfileOf(low))
      && KeyAccepted(RunOf(calls[..2]), key, Scanner.ProfileOf(low))
      && !KeyAccepted(RunOf(calls), key, Scanner.ProfileOf(low))
  {
    hide LearnOver, OneKey, SevenOthers, CallOk, SplitAt, RunOf, KeyAccepted, Keys;
    var a, b, c := OneKey(key, low), SevenOthers(named, high), OneKey(key, other);
    var v := Scanner.ProfileOf(low);
    var s := FirstSample(key, low);
    FirstAccepted(key, low);
    SplitHigher(s.table, 5 + |low|, 4 + |high|);
    SevenKeysIn(s, named, high);
    OrderOf(named, high);
    KeyIn(s.table, 6, key);
    TwoCalls(a, b);
    var t := RunOf([a, b]);
    LearnOverPreserves(s, b.pile, b.order, key, v);
    ForgottenByCall(t, key, low, high, other);
    ThreeCalls(a, b, c);
  }

  lemma FirstAccepted(key: string, low: string)
    requires Digits(low) && CallOk(OneKey(key, low))
    ensures KeyAccepted(RunOf([OneKey(key, low)]), key, Scanner.ProfileOf(low))
  {
    hide LearnKey, LearnOver, NewScore, Sample, SV.Records;
    var call := OneKey(key, low);
    UniformScore(low, Scanner.Digit);
    EmptySplit(1);
    OneVisit(EMPTY, call.pile, key);
    OneCall(call);
    LearnKeyAccepts(EMPTY, key, call.pile[key], Scanner.ProfileOf(low));
  }

  lemma ForgottenByCall(s: State, key: string, low: string, high: string, other: string)
    requires TableOk(s) && key !in s.vals && Digits(low) && Digits(high) && Letters(other) && |high| < |other|
    requires forall i | 0 <= i < |s.table| :: s.table[i].score == 4 + |high|
    requires KeyAccepted(s, key, Scanner.ProfileOf(low))
    ensures CallOk(OneKey(key, other))
    ensures !KeyAccepted(LearnOver(s, OneKey(key, other).pile, OneKey(key, other).order), key, Scanner.ProfileOf(low))
  {
    hide LearnKey, LearnOver, NewScore, Sample, KeyAccepted, SV.Learned, SV.Records;
    UniformScore(other, Scanner.Letter);
    UniformProfile(low, Scanner.Digit);
    OneVisit(s, OneKey(key, other).pile, key);
    SizeOf(s);
    VisitKeepsExactly(s, key, Sample(other), key, Scanner.ProfileOf(low));
  }

  lemma OneCall(a: Call)
    requires CallOk(a)
    ensures RunOf([]) == EMPTY && RunOf([a]) == LearnOver(RunOf([]), a.pile, a.order)
  {
    hide LearnOver, TableOk;
    assert [a][..0] == [];
  }

  lemma KeyIn(table: seq<Slot>, i: nat, key: string)
    requires i < |table| && table[i].key == key && key != ""
    ensures key in Keys(table)
  {
  }

  lemma ThreeCalls(a: Call, b: Call, c: Call)
    requires CallOk(a) && CallOk(b) && CallOk(c)
    ensures RunOf([a, b, c]) == LearnOver(RunOf([a, b]), c.pile, c.order)
    ensures [a, b, c][..1] == [a] && [a, b, c][..2] == [a, b]
  {
    hide LearnOver;
  }

  lemma SizeOf(s: State)
    requires TableOk(s)
    ensures |s.table| == 7
  {
  }

  lemma NoKeys(table: seq<Slot>)
    requires forall i | 0 <= i < |table| :: table[i].key == ""
    ensures Keys(table) == {}
  {
  }

  lemma {:induction false} Size(keys: seq<string>)
    requires forall i, j | 0 <= i < j < |keys| :: keys[i] != keys[j]
    ensures |KeysOf(keys)| == |keys|
  {
    if keys == [] {
      assert KeysOf(keys) == {};
    } else {
      var n := |keys| - 1;
      assert keys == keys[..n] + [keys[n]];
      Size(keys[..n]);
      assert KeysOf(keys) == KeysOf(keys[..n]) + {keys[n]};
    }
  }

  lemma TwoCalls(a: Call, b: Call)
    requires CallOk(a) && CallOk(b)
    ensures RunOf([a, b]) == LearnOver(RunOf([a]), b.pile, b.order)
  {
    hide LearnOver, TableOk;
    assert [a, b][..1] == [a];
  }
}
