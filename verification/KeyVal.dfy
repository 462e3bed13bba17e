// keyval.go: learning values per key. Seven known keys are kept in a table sorted by score;
// a key pushed out of the table is folded into one rule for the names of all other keys and
// one rule for their values.
module KeyVal {
  import opened Wrappers
  import opened Bits
  import Scanner
  import SV = SimpleVal

  const MAX_KEYS_LEARNED := 7

  type Profile = map<string, Scanner.Profile>
  type Pile = map<string, SV.Pile>

  // A free slot has the empty key and score zero.
  datatype Slot = Slot(score: Word, key: string)

  datatype State = State(
    vals: map<string, SV.Config>,
    otherVals: Option<SV.Config>,
    otherKeynames: Option<SV.Config>,
    table: seq<Slot>)

  const FREE := Slot(0, "")
  const EMPTY := State(map[], None, None, [FREE, FREE, FREE, FREE, FREE, FREE, FREE])

  // ---------- Deciding ----------

  predicate OthersAccept(s: State, key: string, v: Scanner.Profile) {
    && s.otherKeynames.Some?
    && s.otherVals.Some?
    && SV.Accepts(s.otherKeynames.value, Scanner.ProfileOf(key))
    && SV.Accepts(s.otherVals.value, v)
  }

  predicate KeyAccepted(s: State, key: string, v: Scanner.Profile) {
    if key in s.vals then SV.Accepts(s.vals[key], v) else OthersAccept(s, key, v)
  }

  // KeyValConfig.Decide returns nil.
  predicate Accepts(s: State, profile: Profile) {
    forall k | k in profile :: KeyAccepted(s, k, profile[k])
  }

  // ---------- Learning ----------

  predicate Sorted(table: seq<Slot>) {
    forall i, j | 0 <= i < j < |table| :: table[i].score <= table[j].score
  }

  // No key sits in two slots; the empty key marks free slots.
  predicate DistinctKeys(table: seq<Slot>) {
    forall i, j | 0 <= i < j < |table| && table[i].key == table[j].key :: table[i].key == ""
  }

  // The keys in the table.
  function Keys(table: seq<Slot>): set<string> {
    set i | 0 <= i < |table| && table[i].key != "" :: table[i].key
  }

  // The slot-table invariant.
  predicate TableOk(s: State) {
    && |s.table| == MAX_KEYS_LEARNED
    && Sorted(s.table)
    && DistinctKeys(s.table)
    && Keys(s.table) <= s.vals.Keys
  }

  // findScoreIndex: the slot before the first slot whose score is not below this one, or -1.
  function FindScoreIndex(table: seq<Slot>, score: Word): (index: int)
    ensures -1 <= index < |table|
    ensures forall i | 0 <= i <= index :: table[i].score < score
    ensures index + 1 < |table| ==> score <= table[index + 1].score
  {
    if table == [] then -1
    else if score <= table[0].score then -1
    else
      assert table[1..] == table[1..];
      1 + FindScoreIndex(table[1..], score)
  }

  // setScore: slots 1 to index move down by one, slot 0 is lost.
  function SetScore(table: seq<Slot>, index: nat, slot: Slot): (r: seq<Slot>)
    requires index < |table|
    ensures |r| == |table|
  {
    table[1..index + 1] + [slot] + table[index + 1..]
  }

  // addSvcToOtherVals
  function WithVals(others: Option<SV.Config>, svc: SV.Config): SV.Config {
    if others.None? then svc else SV.Fused(others.value, svc)
  }

  // addKeyToOtherKeynames
  function WithKeyname(names: Option<SV.Config>, key: string): SV.Config {
    SV.Learned(if names.None? then SV.EMPTY_CONFIG else names.value,
               SV.Added(SV.EMPTY_PILE, Scanner.ProfileOf(key)))
  }

  function Demote(s: State, svc: SV.Config, key: string): State {
    s.(otherVals := Some(WithVals(s.otherVals, svc)),
       otherKeynames := Some(WithKeyname(s.otherKeynames, key)))
  }

  // The score a key is admitted with.
  function NewScore(pile: SV.Pile): Word {
    SV.Score(SV.Learned(SV.EMPTY_CONFIG, pile))
  }

  // One iteration of the loop of Learn.
  function LearnKey(s: State, key: string, pile: SV.Pile): State
    requires TableOk(s)
  {
    if key in s.vals then
      s.(vals := s.vals[key := SV.Learned(s.vals[key], pile)])
    else
      var svc := SV.Learned(SV.EMPTY_CONFIG, pile);
      var index := FindScoreIndex(s.table, NewScore(pile));
      if index >= 0 then
        var lowest := s.table[0].key;
        var admitted := s.(table := SetScore(s.table, index, Slot(NewScore(pile), key)),
                           vals := s.vals[key := svc]);
        if lowest == "" then admitted
        else Demote(admitted.(vals := admitted.vals - {lowest}), s.vals[lowest], lowest)
      else if key == "" then s
      else Demote(s, svc, key)
  }

  // Where a score belongs in the table.
  predicate Fits(table: seq<Slot>, index: nat, score: Word) {
    && index < |table|
    && (forall i | 0 <= i <= index :: table[i].score < score)
    && (index + 1 < |table| ==> score <= table[index + 1].score)
  }

  // A new key put where it fits keeps the table sorted and its keys distinct.
  lemma SetScoreOk(table: seq<Slot>, index: nat, slot: Slot)
    requires Sorted(table) && DistinctKeys(table) && Fits(table, index, slot.score)
    requires forall i | 0 <= i < |table| && table[i].key == slot.key :: slot.key == ""
    ensures Sorted(SetScore(table, index, slot)) && DistinctKeys(SetScore(table, index, slot))
  {
    var r := SetScore(table, index, slot);
    SetScoreAt(table, index, slot);
    forall i, j | 0 <= i < j < |r| ensures r[i].score <= r[j].score {
      if i < index { assert table[i + 1].score <= slot.score; }
      if j > index { assert slot.score <= table[j].score; }
    }
    forall i, j | 0 <= i < j < |r| && r[i].key == r[j].key ensures r[i].key == "" {
      if i == index || j == index {
      } else {
        assert table[if i < index then i + 1 else i].key == table[if j < index then j + 1 else j].key;
      }
    }
  }

  // The table gains the new key and loses the key of slot 0.
  lemma SetScoreKeys(table: seq<Slot>, index: nat, slot: Slot)
    requires index < |table| && DistinctKeys(table)
    ensures Keys(SetScore(table, index, slot)) == Keys(table) - {table[0].key} + ({slot.key} - {""})
       || (slot.key == table[0].key && Keys(SetScore(table, index, slot)) == Keys(table))
  {
    var r := SetScore(table, index, slot);
    SetScoreAt(table, index, slot);
    forall k | k in Keys(r) ensures k in Keys(table) - {table[0].key} + {slot.key} {
      var i :| 0 <= i < |r| && r[i].key == k && k != "";
      if i != index {
        var j := if i < index then i + 1 else i;
        assert table[j].key == k && table[0].key != k;
      }
    }
    forall k | k in Keys(table) - {table[0].key} ensures k in Keys(r) {
      var i :| 0 < i < |table| && table[i].key == k;
      assert r[if i <= index then i - 1 else i].key == k;
    }
    assert slot.key != "" ==> r[index].key in Keys(r);
  }

  // What one visit does to the table and to the set of known keys.
  lemma LearnKeyTable(s: State, key: string, pile: SV.Pile)
    requires TableOk(s)
    ensures var t := LearnKey(s, key, pile);
      var index := FindScoreIndex(s.table, NewScore(pile));
      if key in s.vals || index < 0 then t.table == s.table && t.vals.Keys == s.vals.Keys
      else
        && t.table == SetScore(s.table, index, Slot(NewScore(pile), key))
        && t.vals.Keys == s.vals.Keys + {key} - ({s.table[0].key} - {""})
  {
    hide SV.Learned, SV.Accepts;
    hide SetScore, FindScoreIndex, Sorted, DistinctKeys, NewScore, Keys;
    KeyOfSlot(s.table, 0);
  }

  lemma LearnKeyKeepsTable(s: State, key: string, pile: SV.Pile)
    requires TableOk(s)
    ensures TableOk(LearnKey(s, key, pile))
  {
    LearnKeyTable(s, key, pile);
    hide LearnKey, Keys, NewScore, FindScoreIndex;
    var index := FindScoreIndex(s.table, NewScore(pile));
    if key !in s.vals && index >= 0 {
      var slot := Slot(NewScore(pile), key);
      FreshKey(s, key);
      SetScoreOk(s.table, index, slot);
      SetScoreKeys(s.table, index, slot);
      hide Sorted, DistinctKeys, SetScore;
      KeyOfSlot(s.table, 0);
    }
  }

  lemma KeyOfSlot(table: seq<Slot>, i: nat)
    requires i < |table|
    ensures table[i].key != "" ==> table[i].key in Keys(table)
    ensures "" !in Keys(table)
  {
  }

  lemma FreshKey(s: State, key: string)
    requires TableOk(s) && key !in s.vals
    ensures forall i | 0 <= i < |s.table| && s.table[i].key == key :: key == ""
  {
    forall i | 0 <= i < |s.table| && s.table[i].key == key ensures key == "" {
      KeyOfSlot(s.table, i);
    }
  }

  lemma SetScoreAt(table: seq<Slot>, index: nat, slot: Slot)
    requires index < |table|
    ensures forall i | 0 <= i < |table| ::
      SetScore(table, index, slot)[i] == if i < index then table[i + 1] else if i == index then slot else table[i]
  {
  }

  // KeyValConfig.Learn, visiting the keys of the pile in the given order
  function LearnOver(s: State, pile: Pile, order: seq<string>): (t: State)
    requires TableOk(s)
    requires forall k | k in order :: k in pile
    ensures TableOk(t)
    decreases |order|
  {
    if order == [] then s
    else
      hide LearnKey;
      LearnKeyKeepsTable(s, order[0], pile[order[0]]);
      LearnOver(LearnKey(s, order[0], pile[order[0]]), pile, order[1..])
  }

  // Go visits every key of a map once, in any order.
  ghost predicate IsOrder(order: seq<string>, keys: set<string>) {
    && (forall k :: k in order <==> k in keys)
    && (forall i, j | 0 <= i < j < |order| :: order[i] != order[j])
  }

  // ---------- Soundness ----------

  // Every value of the profile was put in the pile under its key.
  predicate Records(pile: Pile, profile: Profile) {
    forall k | k in profile :: k in pile && SV.Records(pile[k], profile[k])
  }

  // The branch in which the code skips a new key without recording it anywhere.
  predicate Dropped(s: State, key: string, pile: SV.Pile)
    requires |s.table| > 0
  {
    key == "" && key !in s.vals && NewScore(pile) <= s.table[0].score
  }

  lemma DemoteAccepts(s: State, svc: SV.Config, key: string)
    ensures forall v | SV.Accepts(svc, v) :: OthersAccept(Demote(s, svc, key), key, v)
    ensures forall k, v | OthersAccept(s, k, v) :: OthersAccept(Demote(s, svc, key), k, v)
  {
    hide SV.Accepts;
    var t := Demote(s, svc, key);
    var names := if s.otherKeynames.None? then SV.EMPTY_CONFIG else s.otherKeynames.value;
    var p := SV.Added(SV.EMPTY_PILE, Scanner.ProfileOf(key));
    SV.AddedRecords(SV.EMPTY_PILE, Scanner.ProfileOf(key));
    SV.LearnedAccepts(names, p, Scanner.ProfileOf(key));
    SV.LearnedGrows(names, p);
    SV.LeqIsInclusion(names, t.otherKeynames.value);
    if s.otherVals.Some? {
      SV.FusedIsJoin(s.otherVals.value, svc);
      SV.LeqIsInclusion(svc, t.otherVals.value);
      SV.LeqIsInclusion(s.otherVals.value, t.otherVals.value);
    }
  }

  // What was just put in the pile under a key is approved once the key is visited,
  // exactly unless the key was dropped and the rules for other keys do not happen to cover it.
  lemma LearnKeyAccepts(s: State, key: string, pile: SV.Pile, v: Scanner.Profile)
    requires TableOk(s) && SV.Records(pile, v)
    ensures KeyAccepted(LearnKey(s, key, pile), key, v)
      <==> (!Dropped(s, key, pile) || OthersAccept(s, key, v))
  {
    hide SV.Learned, SV.Accepts;
    if key in s.vals {
      SV.LearnedAccepts(s.vals[key], pile, v);
    } else {
      SV.LearnedAccepts(SV.EMPTY_CONFIG, pile, v);
      if FindScoreIndex(s.table, NewScore(pile)) < 0 {
        DemoteAccepts(s, SV.Learned(SV.EMPTY_CONFIG, pile), key);
      }
    }
  }

  // Visiting another key does not take approval away, even when it evicts this key.
  lemma LearnKeyPreserves(s: State, other: string, pile: SV.Pile, key: string, v: Scanner.Profile)
    requires TableOk(s) && key != other && KeyAccepted(s, key, v)
    ensures KeyAccepted(LearnKey(s, other, pile), key, v)
  {
    hide SV.Learned, SV.Accepts;
    if other !in s.vals {
      var svc := SV.Learned(SV.EMPTY_CONFIG, pile);
      if FindScoreIndex(s.table, NewScore(pile)) < 0 {
        DemoteAccepts(s, svc, other);
      } else if s.table[0].key != "" {
        DemoteAccepts(s, s.vals[s.table[0].key], s.table[0].key);
      }
    }
  }

  lemma {:induction false} LearnOverPreserves(s: State, pile: Pile, order: seq<string>, key: string, v: Scanner.Profile)
    requires TableOk(s) && (forall k | k in order :: k in pile)
    requires key !in order && KeyAccepted(s, key, v)
    ensures KeyAccepted(LearnOver(s, pile, order), key, v)
    decreases |order|
  {
    hide LearnKey;
    if order != [] {
      LearnKeyPreserves(s, order[0], pile[order[0]], key, v);
      LearnKeyKeepsTable(s, order[0], pile[order[0]]);
      LearnOverPreserves(LearnKey(s, order[0], pile[order[0]]), pile, order[1..], key, v);
    }
  }

  lemma {:induction false} LearnOverAccepts(s: State, pile: Pile, order: seq<string>, key: string, v: Scanner.Profile)
    requires TableOk(s) && (forall k | k in order :: k in pile)
    requires forall i, j | 0 <= i < j < |order| :: order[i] != order[j]
    requires key in order && SV.Records(pile[key], v)
    requires key != "" || key in s.vals
    ensures KeyAccepted(LearnOver(s, pile, order), key, v)
    decreases |order|
  {
    hide SV.Learned, SV.Accepts;
    var t := LearnKey(s, order[0], pile[order[0]]);
    LearnKeyKeepsTable(s, order[0], pile[order[0]]);
    if key == order[0] {
      LearnKeyAccepts(s, key, pile[key], v);
      LearnOverPreserves(t, pile, order[1..], key, v);
    } else {
      assert key == "" ==> key in t.vals;
      LearnOverAccepts(t, pile, order[1..], key, v);
    }
  }

  // After one Learn, in any iteration order, every profile recorded in the pile is approved.
  lemma LearnSound(s: State, pile: Pile, order: seq<string>, profile: Profile)
    requires TableOk(s) && IsOrder(order, pile.Keys) && Records(pile, profile)
    requires "" in profile ==> "" in s.vals
    ensures Accepts(LearnOver(s, pile, order), profile)
  {
    hide LearnKey;
    forall k | k in profile ensures KeyAccepted(LearnOver(s, pile, order), k, profile[k]) {
      LearnOverAccepts(s, pile, order, k, profile[k]);
    }
  }

  // The config just before the given key is visited.
  function BeforeVisit(s: State, pile: Pile, order: seq<string>, key: string): (t: State)
    requires TableOk(s) && (forall k | k in order :: k in pile)
    ensures TableOk(t)
    decreases |order|
  {
    if order == [] || order[0] == key then s
    else
      hide LearnKey;
      LearnKeyKeepsTable(s, order[0], pile[order[0]]);
      BeforeVisit(LearnKey(s, order[0], pile[order[0]]), pile, order[1..], key)
  }

  lemma {:induction false} StaysUnknown(s: State, pile: Pile, order: seq<string>, key: string)
    requires TableOk(s) && (forall k | k in order :: k in pile) && key !in order && key !in s.vals
    ensures key !in LearnOver(s, pile, order).vals
    decreases |order|
  {
    hide LearnKey;
    if order != [] {
      LearnKeyKeepsTable(s, order[0], pile[order[0]]);
      LearnKeyTable(s, order[0], pile[order[0]]);
      StaysUnknown(LearnKey(s, order[0], pile[order[0]]), pile, order[1..], key);
    }
  }

  lemma {:induction false} LearnOverEmptyKey(s: State, pile: Pile, order: seq<string>, v: Scanner.Profile)
    requires TableOk(s) && (forall k | k in order :: k in pile)
    requires forall i, j | 0 <= i < j < |order| :: order[i] != order[j]
    requires "" in order && SV.Records(pile[""], v)
    ensures var t := LearnOver(s, pile, order);
      KeyAccepted(t, "", v) <==> !Dropped(BeforeVisit(s, pile, order, ""), "", pile[""]) || OthersAccept(t, "", v)
    decreases |order|
  {
    hide SV.Learned, SV.Accepts;
    var key, p := order[0], pile[order[0]];
    var t := LearnKey(s, key, p);
    LearnKeyKeepsTable(s, key, p);
    if key == "" {
      LearnKeyAccepts(s, key, p, v);
      if Dropped(s, key, p) {
        StaysUnknown(t, pile, order[1..], key);
      } else {
        LearnOverPreserves(t, pile, order[1..], key, v);
      }
    } else {
      LearnOverEmptyKey(t, pile, order[1..], v);
    }
  }

  // Exactly when learning is sound: the empty key, if the profile has it, must not be dropped
  // at its visit, unless the rules for other keys end up covering its value.
  lemma LearnSoundExactly(s: State, pile: Pile, order: seq<string>, profile: Profile)
    requires TableOk(s) && IsOrder(order, pile.Keys) && Records(pile, profile)
    ensures var t := LearnOver(s, pile, order);
      Accepts(t, profile) <==>
        ("" in profile ==>
          !Dropped(BeforeVisit(s, pile, order, ""), "", pile[""]) || OthersAccept(t, "", profile[""]))
  {
    var t := LearnOver(s, pile, order);
    forall k | k in profile && k != "" ensures KeyAccepted(t, k, profile[k]) {
      LearnOverAccepts(s, pile, order, k, profile[k]);
    }
    if "" in profile { LearnOverEmptyKey(s, pile, order, profile[""]); }
  }

  // Without the condition on the empty key learning is not sound: a fresh config that learns
  // one empty value under the empty key keeps rejecting it.
  lemma EmptyKeyCounterexample()
    ensures var v := Scanner.ProfileOf("");
      var pile := map["" := SV.Added(SV.EMPTY_PILE, v)];
      TableOk(EMPTY) && IsOrder([""], pile.Keys) && Records(pile, map["" := v])
      && !Accepts(LearnOver(EMPTY, pile, [""]), map["" := v])
  {
    hide SV.Learned, SV.Accepts, SV.Records, SV.Score;
    var v := Scanner.ProfileOf("");
    var p := SV.Added(SV.EMPTY_PILE, v);
    EmptyValueScoresZero();
    SV.AddedRecords(SV.EMPTY_PILE, v);
    assert Dropped(EMPTY, "", p);
    LearnKeyAccepts(EMPTY, "", p, v);
    var pile := map["" := p];
    assert LearnOver(EMPTY, pile, [""]) == LearnKey(EMPTY, "", p) by {
      assert [""][1..] == [];
    }
    var profile := map["" := v];
    assert "" in profile && !KeyAccepted(LearnOver(EMPTY, pile, [""]), "", profile[""]);
  }

  lemma EmptyValueScoresZero()
    ensures NewScore(SV.Added(SV.EMPTY_PILE, Scanner.ProfileOf(""))) == 0
  {
    hide SV.Learned, SV.Added, Scanner.ProfileOf, SV.Score;
    EmptyProfile();
    EmptyPileLearnsNothing();
    EmptyScore();
  }

  lemma EmptyScore()
    ensures SV.Score(SV.EMPTY_CONFIG) == 0
  {
  }

  lemma EmptyProfile()
    ensures Scanner.ProfileOf("") == Scanner.Profile(0, 0, 0, 0, 0, 0, 0, 0, [])
  {
    forall cls ensures Scanner.Positions("", cls) == {} {}
    assert Scanner.RunStarts("") == {};
    assert Scanner.FlagSet("") == {};
    Scanner.FromEmpty(32);
  }

  lemma EmptyPileLearnsNothing()
    ensures SV.Learned(SV.EMPTY_CONFIG, SV.Added(SV.EMPTY_PILE, Scanner.Profile(0, 0, 0, 0, 0, 0, 0, 0, [])))
         == SV.EMPTY_CONFIG
  {
    var z: Scanner.Profile := Scanner.Profile(0, 0, 0, 0, 0, 0, 0, 0, []);
    var p := SV.Added(SV.EMPTY_PILE, z);
    assert p == SV.Pile([0], [0], [0], [0], [0], [0], [0], 0, []);
    SV.LearnedBelow(SV.EMPTY_CONFIG, p, SV.EMPTY_CONFIG);
    SV.LearnedLimits(SV.EMPTY_CONFIG, p);
  }

  // ---------- When the empty key is dropped ----------

  // One visit moves no slot below its place, nor above the place of the next slot.
  lemma SlotsClimb(s: State, key: string, pile: SV.Pile)
    requires TableOk(s)
    ensures var t := LearnKey(s, key, pile);
      && |t.table| == |s.table| && s.table[0].score <= t.table[0].score
      && (forall i | 0 <= i < |s.table| - 1 :: t.table[i].score <= s.table[i + 1].score)
  {
    LearnKeyTable(s, key, pile);
    hide LearnKey, NewScore, FindScoreIndex, SetScore, Keys, DistinctKeys;
    var index, slot := FindScoreIndex(s.table, NewScore(pile)), Slot(NewScore(pile), key);
    if key !in s.vals && index >= 0 { InsertClimbs(s.table, index, slot); }
  }

  lemma InsertClimbs(table: seq<Slot>, index: nat, slot: Slot)
    requires Sorted(table) && Fits(table, index, slot.score)
    ensures var r := SetScore(table, index, slot);
      table[0].score <= r[0].score && forall i | 0 <= i < |table| - 1 :: r[i].score <= table[i + 1].score
  {
    SetScoreAt(table, index, slot);
    hide SetScore;
  }

  // Visits to other keys do not change whether the empty key is known.
  lemma EmptyKeyKnown(s: State, key: string, pile: SV.Pile)
    requires TableOk(s) && key != ""
    ensures "" in LearnKey(s, key, pile).vals <==> "" in s.vals
  {
    LearnKeyTable(s, key, pile);
    hide LearnKey, NewScore, FindScoreIndex;
    var t := LearnKey(s, key, pile);
    assert "" in t.vals <==> "" in t.vals.Keys;
  }

  lemma {:induction false} BeforeVisitSlots(s: State, pile: Pile, order: seq<string>)
    requires TableOk(s) && (forall k | k in order :: k in pile) && "" in order
    ensures var u := BeforeVisit(s, pile, order, "");
      && ("" in u.vals <==> "" in s.vals)
      && s.table[0].score <= u.table[0].score
      && (|order| <= MAX_KEYS_LEARNED ==> u.table[0].score <= s.table[|order| - 1].score)
    decreases |order|
  {
    hide LearnKey;
    if order[0] != "" {
      LearnKeyKeepsTable(s, order[0], pile[order[0]]);
      SlotsClimb(s, order[0], pile[order[0]]);
      EmptyKeyKnown(s, order[0], pile[order[0]]);
      BeforeVisitSlots(LearnKey(s, order[0], pile[order[0]]), pile, order[1..]);
    }
  }

  ghost function SomeOrder(keys: set<string>): (order: seq<string>)
    ensures IsOrder(order, keys)
  {
    if keys == {} then []
    else
      var k :| k in keys;
      [k] + SomeOrder(keys - {k})
  }

  // The visit to the empty key, when its turn comes in this order, drops it.
  predicate DroppedIn(s: State, pile: Pile, order: seq<string>)
    requires TableOk(s) && "" in pile && (forall k | k in order :: k in pile)
  {
    Dropped(BeforeVisit(s, pile, order, ""), "", pile[""])
  }

  // The empty key is dropped whatever the order of the visits exactly when it is not known and
  // does not score above the lowest slot.
  lemma EmptyKeyDropped(s: State, pile: Pile)
    requires TableOk(s) && "" in pile
    ensures (forall order | IsOrder(order, pile.Keys) :: DroppedIn(s, pile, order))
            <==> "" !in s.vals && NewScore(pile[""]) <= s.table[0].score
  {
    hide NewScore, BeforeVisit, DroppedIn;
    forall order | IsOrder(order, pile.Keys)
      ensures "" !in s.vals && NewScore(pile[""]) <= s.table[0].score ==> DroppedIn(s, pile, order)
    {
      LowScoreDropped(s, pile, order);
    }
    var first := EmptyKeyFirst(s, pile);
  }

  lemma LowScoreDropped(s: State, pile: Pile, order: seq<string>)
    requires TableOk(s) && "" in pile && IsOrder(order, pile.Keys)
    ensures "" !in s.vals && NewScore(pile[""]) <= s.table[0].score ==> DroppedIn(s, pile, order)
  {
    hide NewScore, BeforeVisit, Keys;
    BeforeVisitSlots(s, pile, order);
  }

  // The order that begins with the empty key decides on the config as it is.
  lemma EmptyKeyFirst(s: State, pile: Pile) returns (order: seq<string>)
    requires TableOk(s) && "" in pile
    ensures IsOrder(order, pile.Keys)
    ensures DroppedIn(s, pile, order) <==> "" !in s.vals && NewScore(pile[""]) <= s.table[0].score
  {
    hide NewScore;
    order := [""] + SomeOrder(pile.Keys - {""});
  }

  // It is never dropped when it is known, or scores above the slot that the visits to the other
  // keys can bring down to the lowest place.
  predicate EmptyKeySafe(s: State, pile: Pile)
    requires TableOk(s) && "" in pile
  {
    "" in s.vals || (|pile| <= MAX_KEYS_LEARNED && NewScore(pile[""]) > s.table[|pile| - 1].score)
  }

  lemma EmptyKeyKept(s: State, pile: Pile, order: seq<string>)
    requires TableOk(s) && "" in pile && IsOrder(order, pile.Keys) && EmptyKeySafe(s, pile)
    ensures !DroppedIn(s, pile, order)
  {
    hide NewScore, TableOk, Keys;
    BeforeVisitSlots(s, pile, order);
    OrderLength(order, pile.Keys);
    assert |pile| == |pile.Keys|;
  }

  lemma {:induction false} OrderLength(order: seq<string>, keys: set<string>)
    requires IsOrder(order, keys)
    ensures |order| == |keys|
  {
    if order == [] {
      assert keys == {};
    } else {
      var n := |order| - 1;
      var rest := keys - {order[n]};
      assert order[n] in keys;
      forall k ensures k in order[..n] <==> k in rest {
        assert k in order <==> k in order[..n] || k == order[n];
      }
      OrderLength(order[..n], rest);
    }
  }

  // The rules for other keys only ever grow.
  lemma OthersGrow(s: State, key: string, pile: SV.Pile, k: string, v: Scanner.Profile)
    requires TableOk(s) && OthersAccept(s, k, v)
    ensures OthersAccept(LearnKey(s, key, pile), k, v)
  {
    hide SV.Learned, SV.Accepts;
    hide SetScore;
    if key !in s.vals {
      DemoteAccepts(s, SV.Learned(SV.EMPTY_CONFIG, pile), key);
      if s.table[0].key != "" {
        KeyOfSlot(s.table, 0);
        DemoteAccepts(s, s.vals[s.table[0].key], s.table[0].key);
      }
    }
  }

  lemma {:induction false} OthersGrowOver(s: State, pile: Pile, order: seq<string>, k: string, v: Scanner.Profile)
    requires TableOk(s) && (forall j | j in order :: j in pile) && OthersAccept(s, k, v)
    ensures OthersAccept(LearnOver(s, pile, order), k, v)
    decreases |order|
  {
    hide LearnKey, OthersAccept;
    if order != [] {
      LearnKeyKeepsTable(s, order[0], pile[order[0]]);
      OthersGrow(s, order[0], pile[order[0]], k, v);
      OthersGrowOver(LearnKey(s, order[0], pile[order[0]]), pile, order[1..], k, v);
    }
  }

  // What has to hold before the call if the profile has the empty key.
  predicate Covered(s: State, pile: Pile, profile: Profile)
    requires TableOk(s)
  {
    "" in profile ==> "" in pile && (EmptyKeySafe(s, pile) || OthersAccept(s, "", profile[""]))
  }

  // Learning is sound whatever the order, under a condition on the config and the pile before the
  // call.
  lemma LearnSoundInAnyOrder(s: State, pile: Pile, order: seq<string>, profile: Profile)
    requires TableOk(s) && IsOrder(order, pile.Keys) && Records(pile, profile) && Covered(s, pile, profile)
    ensures Accepts(LearnOver(s, pile, order), profile)
  {
    hide TableOk, OthersAccept, LearnOver, BeforeVisit, EmptyKeySafe, Accepts;
    LearnSoundExactly(s, pile, order, profile);
    if "" in profile {
      if EmptyKeySafe(s, pile) { EmptyKeyKept(s, pile, order); }
      else { OthersGrowOver(s, pile, order, "", profile[""]); }
    }
  }

  // ---------- Learning with room for every new key ----------

  // The n lowest slots are free.
  predicate Room(table: seq<Slot>, n: nat) {
    n <= |table| && forall i | 0 <= i < n :: table[i] == FREE
  }

  function Unknown(s: State, order: seq<string>): nat {
    if order == [] then 0 else (if order[0] in s.vals then 0 else 1) + Unknown(s, order[1..])
  }

  // New keys other than the empty one have a score.
  predicate Scoring(s: State, pile: Pile, order: seq<string>)
    requires forall k | k in order :: k in pile
  {
    forall k | k in order && k !in s.vals && k != "" :: NewScore(pile[k]) > 0
  }

  lemma {:induction false} SameUnknown(s: State, t: State, order: seq<string>)
    requires forall k | k in order :: k in s.vals <==> k in t.vals
    ensures Unknown(s, order) == Unknown(t, order)
  {
    if order != [] {
      assert order[0] in order;
      SameUnknown(s, t, order[1..]);
    }
  }

  lemma {:induction false} UnknownIs(s: State, order: seq<string>, keys: set<string>)
    requires IsOrder(order, keys)
    ensures Unknown(s, order) == |keys - s.vals.Keys|
  {
    if order == [] {
      assert keys - s.vals.Keys == {};
    } else {
      WithoutFirst(order, keys);
      UnknownIs(s, order[1..], keys - {order[0]});
      OneFewer(keys, s.vals.Keys, order[0]);
    }
  }

  lemma WithoutFirst(order: seq<string>, keys: set<string>)
    requires IsOrder(order, keys) && order != []
    ensures order[0] in keys && IsOrder(order[1..], keys - {order[0]})
  {
    assert order == [order[0]] + order[1..];
  }

  lemma OneFewer(keys: set<string>, known: set<string>, k: string)
    requires k in keys
    ensures |keys - known| == |keys - {k} - known| + if k in known then 0 else 1
  {
    if k in known {
      assert keys - known == keys - {k} - known;
    } else {
      assert keys - known == (keys - {k} - known) + {k};
    }
  }

  // A new key that scores takes a free slot; nothing is handed to the rules for other keys.
  lemma VisitWithRoom(s: State, key: string, pile: SV.Pile, n: nat)
    requires TableOk(s) && Room(s.table, n) && (key !in s.vals ==> n > 0 && (key == "" || NewScore(pile) > 0))
    ensures var t := LearnKey(s, key, pile);
      && t.otherVals == s.otherVals && t.otherKeynames == s.otherKeynames
      && Room(t.table, if key in s.vals then n else n - 1)
      && (forall k | k != key :: k in t.vals <==> k in s.vals)
  {
    hide SV.Learned, NewScore, Demote, SetScore;
    var index, slot := FindScoreIndex(s.table, NewScore(pile)), Slot(NewScore(pile), key);
    if key !in s.vals {
      assert s.table[0] == FREE;
      if index >= 0 {
        SetScoreAt(s.table, index, slot);
        assert slot.score > 0;
        assert index + 1 < |s.table| ==> s.table[index + 1] != FREE;
        forall i | 0 <= i < n - 1 ensures SetScore(s.table, index, slot)[i] == FREE { assert s.table[i + 1] == FREE; }
      }
    }
  }

  lemma {:induction false} LearnWithRoom(s: State, pile: Pile, order: seq<string>)
    requires TableOk(s) && (forall k | k in order :: k in pile)
    requires forall i, j | 0 <= i < j < |order| :: order[i] != order[j]
    requires Room(s.table, Unknown(s, order)) && Scoring(s, pile, order)
    ensures var t := LearnOver(s, pile, order); t.otherVals == s.otherVals && t.otherKeynames == s.otherKeynames
    ensures "" in order && "" !in s.vals ==> BeforeVisit(s, pile, order, "").table[0].score == 0
    decreases |order|
  {
    hide LearnKey, NewScore, TableOk;
    if order != [] {
      var key, rest := order[0], order[1..];
      var t := LearnKey(s, key, pile[key]);
      LearnKeyKeepsTable(s, key, pile[key]);
      TableSize(s);
      VisitWithRoom(s, key, pile[key], Unknown(s, order));
      assert order == [key] + rest;
      SameUnknown(s, t, rest);
      LearnWithRoom(t, pile, rest);
    }
  }

  lemma TableSize(s: State)
    requires TableOk(s)
    ensures |s.table| == MAX_KEYS_LEARNED
  {
  }

  // With a free slot for every new key the order does not matter, and learning is sound exactly
  // when the empty key is known, or scores, or the rules for other keys cover its value already.
  lemma LearnSoundWithRoom(s: State, pile: Pile, order: seq<string>, profile: Profile)
    requires TableOk(s) && IsOrder(order, pile.Keys) && Records(pile, profile)
    requires Room(s.table, |pile.Keys - s.vals.Keys|)
    requires forall k | k in pile && k !in s.vals && k != "" :: NewScore(pile[k]) > 0
    ensures Accepts(LearnOver(s, pile, order), profile) <==>
            ("" in profile ==>
               "" in s.vals || NewScore(pile[""]) > s.table[0].score || OthersAccept(s, "", profile[""]))
  {
    hide TableOk, LearnOver, BeforeVisit, Accepts, NewScore, Unknown;
    LearnSoundExactly(s, pile, order, profile);
    UnknownIs(s, order, pile.Keys);
    LearnWithRoom(s, pile, order);
    if "" in profile {
      BeforeVisitSlots(s, pile, order);
      if "" !in s.vals { assert "" in pile.Keys - s.vals.Keys; }
    }
  }

  // ---------- Where piles come from ----------

  datatype History =
    | Fresh
    | Add(before: History, profile: Profile)
    | Merge(before: History, other: History)

  // The pile of a key, or the one created for it.
  function PileAt(pile: Pile, key: string): SV.Pile {
    if key in pile then pile[key] else SV.EMPTY_PILE
  }

  // KeyValPile.Add
  function Added(pile: Pile, profile: Profile): Pile {
    map k | k in pile.Keys + profile.Keys ::
      if k in profile then SV.Added(PileAt(pile, k), profile[k]) else pile[k]
  }

  // KeyValPile.Merge
  function Merged(pile: Pile, other: Pile): Pile {
    map k | k in pile.Keys + other.Keys ::
      if k in other then SV.Merged(PileAt(pile, k), other[k]) else pile[k]
  }

  function PileOf(h: History): Pile {
    match h
    case Fresh => map[]
    case Add(before, profile) => Added(PileOf(before), profile)
    case Merge(before, other) => Merged(PileOf(before), PileOf(other))
  }

  function Samples(h: History): set<Profile> {
    match h
    case Fresh => {}
    case Add(before, profile) => Samples(before) + {profile}
    case Merge(before, other) => Samples(before) + Samples(other)
  }

  lemma AddedRecords(pile: Pile, profile: Profile)
    ensures Records(Added(pile, profile), profile)
    ensures forall q :: Records(pile, q) ==> Records(Added(pile, profile), q)
  {
    forall k | k in profile ensures SV.Records(Added(pile, profile)[k], profile[k]) {
      SV.AddedRecords(PileAt(pile, k), profile[k]);
    }
    forall q | Records(pile, q) ensures Records(Added(pile, profile), q) {
      forall k | k in q ensures SV.Records(Added(pile, profile)[k], q[k]) {
        if k in profile { SV.AddedRecords(pile[k], profile[k]); }
      }
    }
  }

  lemma MergedRecords(pile: Pile, other: Pile)
    ensures forall q :: Records(pile, q) || Records(other, q) ==> Records(Merged(pile, other), q)
  {
    forall q | Records(pile, q) || Records(other, q) ensures Records(Merged(pile, other), q) {
      forall k | k in q ensures SV.Records(Merged(pile, other)[k], q[k]) {
        if k in other {
          SV.MergedRecords(PileAt(pile, k), other[k]);
        }
      }
    }
  }

  lemma {:induction false} HistoryRecords(h: History, p: Profile)
    requires p in Samples(h)
    ensures Records(PileOf(h), p)
  {
    match h
    case Fresh =>
    case Add(before, profile) =>
      AddedRecords(PileOf(before), profile);
      if p in Samples(before) { HistoryRecords(before, p); }
    case Merge(before, other) =>
      MergedRecords(PileOf(before), PileOf(other));
      if p in Samples(before) { HistoryRecords(before, p); } else { HistoryRecords(other, p); }
  }

  // Learning a pile makes the config approve every profile ever added or merged into it; one with
  // the empty key when that key is covered.
  lemma LearnedSamplesAccepted(s: State, h: History, order: seq<string>)
    requires TableOk(s) && IsOrder(order, PileOf(h).Keys)
    ensures forall p | p in Samples(h) && Covered(s, PileOf(h), p) :: Accepts(LearnOver(s, PileOf(h), order), p)
  {
    hide TableOk, Covered, Accepts, LearnOver;
    forall p | p in Samples(h) && Covered(s, PileOf(h), p)
      ensures Accepts(LearnOver(s, PileOf(h), order), p)
    {
      HistoryRecords(h, p);
      LearnSoundInAnyOrder(s, PileOf(h), order, p);
    }
  }

  // ---------- The table is a streaming top seven ----------

  function Scores(table: seq<Slot>): seq<Word> {
    seq(|table|, i requires 0 <= i < |table| => table[i].score)
  }

  // The admission scores one visit offers to the table.
  function Offer(s: State, key: string, pile: SV.Pile): seq<Word> {
    if key in s.vals then [] else [NewScore(pile)]
  }

  function Offers(s: State, pile: Pile, order: seq<string>): seq<Word>
    requires TableOk(s) && (forall k | k in order :: k in pile)
    decreases |order|
  {
    if order == [] then []
    else
      hide LearnKey;
      LearnKeyKeepsTable(s, order[0], pile[order[0]]);
      Offer(s, order[0], pile[order[0]]) + Offers(LearnKey(s, order[0], pile[order[0]]), pile, order[1..])
  }

  datatype Call = Call(pile: Pile, order: seq<string>)

  ghost predicate CallOk(c: Call) {
    IsOrder(c.order, c.pile.Keys)
  }

  // A run of Learn calls on an empty config.
  ghost function RunOf(calls: seq<Call>): (s: State)
    requires forall i | 0 <= i < |calls| :: CallOk(calls[i])
    ensures TableOk(s)
  {
    if calls == [] then EMPTY
    else
      var n := |calls| - 1;
      assert CallOk(calls[n]);
      LearnOver(RunOf(calls[..n]), calls[n].pile, calls[n].order)
  }

  // All admission scores offered during the run.
  ghost function RunOffers(calls: seq<Call>): seq<Word>
    requires forall i | 0 <= i < |calls| :: CallOk(calls[i])
  {
    if calls == [] then []
    else
      var n := |calls| - 1;
      assert CallOk(calls[n]);
      RunOffers(calls[..n]) + Offers(RunOf(calls[..n]), calls[n].pile, calls[n].order)
  }

  // kept together with dropped is everything offered, and nothing dropped exceeds anything kept.
  predicate Largest(kept: seq<Word>, offered: multiset<Word>, dropped: multiset<Word>) {
    && multiset(kept) + dropped == offered
    && (forall d, i | d in dropped && 0 <= i < |kept| :: d <= kept[i])
  }

  const ZEROS: multiset<Word> := multiset{0, 0, 0, 0, 0, 0, 0}

  // Slots hold exactly the known keys.
  predicate SlotsAreKeys(s: State) {
    Keys(s.table) == s.vals.Keys - {""}
  }

  lemma LearnKeyTopSeven(s: State, key: string, pile: SV.Pile, offered: multiset<Word>, dropped: multiset<Word>)
    returns (dropped': multiset<Word>)
    requires TableOk(s) && SlotsAreKeys(s) && Largest(Scores(s.table), offered, dropped)
    ensures var t := LearnKey(s, key, pile);
      SlotsAreKeys(t) && Largest(Scores(t.table), offered + multiset(Offer(s, key, pile)), dropped')
  {
    LearnKeyTable(s, key, pile);
    hide LearnKey, NewScore, Keys;
    dropped' := dropped;
    var score := NewScore(pile);
    if key in s.vals {
      assert offered + multiset(Offer(s, key, pile)) == offered;
    } else {
      assert multiset(Offer(s, key, pile)) == multiset{score};
      var index := FindScoreIndex(s.table, score);
      if index < 0 {
        dropped' := dropped + multiset{score};
        assert multiset(Scores(s.table)) + dropped' == offered + multiset{score};
      } else {
        dropped' := dropped + multiset{s.table[0].score};
        InsertKeepsLargest(s.table, index, Slot(score, key), offered, dropped);
        InsertKeepsSlots(s, key, pile);
      }
    }
  }

  // Dropping the head of a sequence and inserting one element.
  lemma ReplaceHead(kept: seq<Word>, index: nat, score: Word)
    requires index < |kept|
    ensures multiset(kept[1..index + 1] + [score] + kept[index + 1..]) + multiset{kept[0]}
         == multiset(kept) + multiset{score}
  {
    var a, b := kept[1..index + 1], kept[index + 1..];
    assert kept == [kept[0]] + a + b;
  }

  lemma InsertKeepsLargest(table: seq<Slot>, index: nat, slot: Slot,
                           offered: multiset<Word>, dropped: multiset<Word>)
    requires 0 <= index < |table| && Sorted(table) && Largest(Scores(table), offered, dropped)
    requires Fits(table, index, slot.score)
    ensures Largest(Scores(SetScore(table, index, slot)), offered + multiset{slot.score},
                    dropped + multiset{table[0].score})
  {
    var kept, kept' := Scores(table), Scores(SetScore(table, index, slot));
    ScoresInserted(table, index, slot);
    hide Sorted, Fits, SetScore, Scores;
    ReplaceHead(kept, index, slot.score);
    ExchangeLargest(multiset(kept), multiset(kept'), offered, dropped, kept[0], slot.score);
    forall d, i | d in dropped + multiset{table[0].score} && 0 <= i < |kept'| ensures d <= kept'[i] {
      assert d <= kept[0] <= kept'[i];
    }
  }

  lemma ScoresInserted(table: seq<Slot>, index: nat, slot: Slot)
    requires Sorted(table) && Fits(table, index, slot.score)
    ensures var kept, kept' := Scores(table), Scores(SetScore(table, index, slot));
      && |kept| == |kept'| == |table| && kept[0] == table[0].score
      && kept' == kept[1..index + 1] + [slot.score] + kept[index + 1..]
      && forall i | 0 <= i < |kept'| :: kept[0] <= kept'[i]
  {
    SetScoreAt(table, index, slot);
    hide SetScore;
  }

  lemma ExchangeLargest(kept: multiset<Word>, kept': multiset<Word>, offered: multiset<Word>,
                        dropped: multiset<Word>, lost: Word, score: Word)
    requires kept + dropped == offered && kept' + multiset{lost} == kept + multiset{score}
    ensures kept' + (dropped + multiset{lost}) == offered + multiset{score}
  {
    assert kept' + (dropped + multiset{lost}) == (kept' + multiset{lost}) + dropped;
  }

  lemma InsertKeepsSlots(s: State, key: string, pile: SV.Pile)
    requires TableOk(s) && SlotsAreKeys(s) && key !in s.vals
    requires FindScoreIndex(s.table, NewScore(pile)) >= 0
    ensures SlotsAreKeys(LearnKey(s, key, pile))
  {
    LearnKeyTable(s, key, pile);
    KeyOfSlot(s.table, 0);
    SetScoreKeys(s.table, FindScoreIndex(s.table, NewScore(pile)), Slot(NewScore(pile), key));
    hide LearnKey, Keys, NewScore, Sorted, DistinctKeys, SetScore, FindScoreIndex;
  }

  lemma {:induction false} LearnTopSeven(s: State, pile: Pile, order: seq<string>,
                                         offered: multiset<Word>, dropped: multiset<Word>)
    returns (dropped': multiset<Word>)
    requires TableOk(s) && (forall k | k in order :: k in pile)
    requires SlotsAreKeys(s) && Largest(Scores(s.table), offered, dropped)
    ensures var t := LearnOver(s, pile, order);
      SlotsAreKeys(t) && Largest(Scores(t.table), offered + multiset(Offers(s, pile, order)), dropped')
    decreases |order|
  {
    hide LearnKey;
    if order == [] {
      dropped' := dropped;
      assert offered + multiset([]) == offered;
    } else {
      var o := Offer(s, order[0], pile[order[0]]);
      var next := LearnKeyTopSeven(s, order[0], pile[order[0]], offered, dropped);
      LearnKeyKeepsTable(s, order[0], pile[order[0]]);
      var t := LearnKey(s, order[0], pile[order[0]]);
      dropped' := LearnTopSeven(t, pile, order[1..], offered + multiset(o), next);
      assert offered + multiset(o) + multiset(Offers(t, pile, order[1..]))
          == offered + multiset(o + Offers(t, pile, order[1..]));
    }
  }

  lemma EmptyTopSeven()
    ensures SlotsAreKeys(EMPTY) && Largest(Scores(EMPTY.table), ZEROS, multiset{})
  {
    assert Scores(EMPTY.table) == [0, 0, 0, 0, 0, 0, 0];
  }

  lemma {:induction false} RunTopSeven(calls: seq<Call>) returns (dropped: multiset<Word>)
    requires forall i | 0 <= i < |calls| :: CallOk(calls[i])
    ensures SlotsAreKeys(RunOf(calls))
    ensures Largest(Scores(RunOf(calls).table), ZEROS + multiset(RunOffers(calls)), dropped)
  {
    hide SlotsAreKeys, Largest, Offers, LearnOver;
    if calls == [] {
      dropped := multiset{};
      EmptyTopSeven();
      assert ZEROS + multiset([]) == ZEROS;
    } else {
      var n := |calls| - 1;
      assert CallOk(calls[n]);
      var before := RunTopSeven(calls[..n]);
      var o := ZEROS + multiset(RunOffers(calls[..n]));
      dropped := LearnTopSeven(RunOf(calls[..n]), calls[n].pile, calls[n].order, o, before);
      var more := Offers(RunOf(calls[..n]), calls[n].pile, calls[n].order);
      assert o + multiset(more) == ZEROS + multiset(RunOffers(calls[..n]) + more);
    }
  }

  // Over any run of Learn calls the table is sorted and holds the seven largest of seven zeros
  // and every score offered; its keys are distinct and are the known keys, at most seven.
  lemma TableIsTopSeven(calls: seq<Call>)
    requires forall i | 0 <= i < |calls| :: CallOk(calls[i])
    ensures var s := RunOf(calls);
      && |s.table| == 7 && Sorted(s.table) && DistinctKeys(s.table)
      && (exists dropped :: Largest(Scores(s.table), ZEROS + multiset(RunOffers(calls)), dropped))
      && SlotsAreKeys(s)
      && |s.vals.Keys - {""}| <= 7
  {
    var s := RunOf(calls);
    var dropped := RunTopSeven(calls);
    KeysFit(s.table);
  }

  // The table has room for its keys.
  lemma {:induction false} KeysFit(table: seq<Slot>)
    ensures |Keys(table)| <= |table|
    decreases |table|
  {
    if table != [] {
      var n := |table| - 1;
      KeysFit(table[..n]);
      forall k | k in Keys(table) ensures k in Keys(table[..n]) + {table[n].key} {
        var i :| 0 <= i < |table| && table[i].key == k && k != "";
        if i < n { assert table[..n][i].key == k; }
      }
      SubsetSize(Keys(table), Keys(table[..n]) + {table[n].key});
    }
  }

  lemma {:induction false} SubsetSize(a: set<string>, b: set<string>)
    requires a <= b
    ensures |a| <= |b|
  {
    assert b == a + (b - a);
  }

  // ---------- Prepare ----------

  function PrepareKey(s: State, key: string): State
    requires |s.table| == MAX_KEYS_LEARNED && key in s.vals
  {
    var score := SV.Score(s.vals[key]);
    var index := FindScoreIndex(s.table, score);
    if index >= 0 then s.(table := SetScore(s.table, index, Slot(score, key))) else s
  }

  // KeyValConfig.Prepare fills the table of a loaded config, visiting Vals in the given order.
  function PrepareOver(s: State, order: seq<string>): State
    requires |s.table| == MAX_KEYS_LEARNED && (forall k | k in order :: k in s.vals)
    decreases |order|
  {
    if order == [] then s else PrepareOver(PrepareKey(s, order[0]), order[1..])
  }

  lemma PrepareKeyKeepsTable(s: State, key: string)
    requires TableOk(s) && key in s.vals && key !in Keys(s.table)
    ensures var t := PrepareKey(s, key);
      TableOk(t) && t.vals == s.vals && Keys(t.table) <= Keys(s.table) + {key}
  {
    hide SV.Score, Keys;
    var slot := Slot(SV.Score(s.vals[key]), key);
    var index := FindScoreIndex(s.table, slot.score);
    if index >= 0 {
      forall i | 0 <= i < |s.table| && s.table[i].key == key ensures key == "" { KeyOfSlot(s.table, i); }
      SetScoreOk(s.table, index, slot);
      SetScoreKeys(s.table, index, slot);
    }
  }

  // A config loaded with a blank table satisfies the slot-table invariant once prepared.
  lemma {:induction false} PrepareEstablishesTable(s: State, order: seq<string>)
    requires TableOk(s) && (forall k | k in order :: k in s.vals)
    requires forall i, j | 0 <= i < j < |order| :: order[i] != order[j]
    requires forall k | k in order :: k !in Keys(s.table)
    ensures TableOk(PrepareOver(s, order)) && PrepareOver(s, order).vals == s.vals
    decreases |order|
  {
    hide Sorted, DistinctKeys, Keys, PrepareKey;
    if order != [] {
      PrepareKeyKeepsTable(s, order[0]);
      PrepareEstablishesTable(PrepareKey(s, order[0]), order[1..]);
    }
  }
}
