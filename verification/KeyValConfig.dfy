// keyval.go: the KeyValConfig object. Vals maps keys to rule objects that are updated in
// place, valScores is a fixed array whose slots are shifted in place, and an evicted rule
// object becomes, or is folded into, the rule for other values. View() is its value.
module KeyValConfigs {
  import opened Wrappers
  import opened Bits
  import opened KeyVal
  import Scanner
  import SV = SimpleVal

  ghost function ViewOf(c: SV.SimpleValConfig?): Option<SV.Config>
    reads c
  {
    if c == null then None else Some(c.View())
  }

  function Only<V>(m: map<string, V>, keys: set<string>): map<string, V> {
    map k | k in m && k in keys :: m[k]
  }

  // Adding one more key of a profile.
  lemma AddedOne(pile: Pile, profile: Profile, done: set<string>, key: string)
    requires key in profile && key !in done
    ensures var p := Added(pile, Only(profile, done));
      Added(pile, Only(profile, done + {key})) == p[key := SV.Added(PileAt(p, key), profile[key])]
  {
    hide SV.Added;
  }

  // Merging one more key of a pile.
  lemma MergedOne(pile: Pile, other: Pile, done: set<string>, key: string)
    requires key in other && key !in done
    ensures var p := Merged(pile, Only(other, done));
      Merged(pile, Only(other, done + {key})) == p[key := SV.Merged(PileAt(p, key), other[key])]
  {
    hide SV.Merged;
  }

  lemma AddedEnds(pile: Pile, profile: Profile)
    ensures Added(pile, Only(profile, {})) == pile && Only(profile, profile.Keys) == profile
  {
    hide SV.Added;
    assert Only(profile, {}).Keys == {};
  }

  lemma MergedEnds(pile: Pile, other: Pile)
    ensures Merged(pile, Only(other, {})) == pile && Only(other, other.Keys) == other
  {
    hide SV.Merged;
    assert Only(other, {}).Keys == {};
  }

  // KeyValPile.Add
  method AddToPile(pile0: Pile, profile: Profile) returns (pile: Pile)
    ensures pile == Added(pile0, profile)
  {
    hide SV.Added, Added, Only;
    pile := pile0;
    var done, rest := {}, profile.Keys;
    AddedEnds(pile0, profile);
    while rest != {}
      invariant done == profile.Keys - rest && rest <= profile.Keys
      invariant pile == Added(pile0, Only(profile, done))
      decreases |rest|
    {
      var key :| key in rest;
      AddedOne(pile0, profile, done, key);
      done, rest := done + {key}, rest - {key};
      if key !in pile { pile := pile[key := SV.EMPTY_PILE]; }
      pile := pile[key := SV.Added(pile[key], profile[key])];
    }
    assert done == profile.Keys;
  }

  // KeyValPile.Merge into a pile that is not nil
  method MergeIntoPile(pile0: Pile, other: Pile) returns (pile: Pile)
    ensures pile == Merged(pile0, other)
  {
    hide SV.Merged, Merged, Only;
    pile := pile0;
    var done, rest := {}, other.Keys;
    MergedEnds(pile0, other);
    while rest != {}
      invariant done == other.Keys - rest && rest <= other.Keys
      invariant pile == Merged(pile0, Only(other, done))
      decreases |rest|
    {
      var key :| key in rest;
      MergedOne(pile0, other, done, key);
      done, rest := done + {key}, rest - {key};
      if key !in pile { pile := pile[key := SV.EMPTY_PILE]; }
      pile := pile[key := SV.Merged(pile[key], other[key])];
    }
    assert done == other.Keys;
  }

  // Merge into a nil pile keeps the other pile itself, which is what merging into an empty one yields.
  lemma MergeIntoNil(other: Pile)
    ensures Merged(map[], other) == other
  {
    forall k | k in other ensures SV.Merged(SV.EMPTY_PILE, other[k]) == other[k] {
      MergeIntoEmpty(other[k]);
    }
  }

  lemma MergeIntoEmpty(p: SV.Pile)
    ensures SV.Merged(SV.EMPTY_PILE, p) == p
  {
    var m := SV.Merged(SV.EMPTY_PILE, p);
    forall i: nat | i < |p.unicodeFlags| ensures m.unicodeFlags[i] == p.unicodeFlags[i] {}
    assert m.unicodeFlags == p.unicodeFlags;
  }

  class KeyValConfig {
    var vals: map<string, SV.SimpleValConfig>
    var otherVals: SV.SimpleValConfig?
    var otherKeynames: SV.SimpleValConfig?
    const valScores: array<Slot>

    // The rule objects.
    ghost function Rules(): set<object>
      reads this
    {
      vals.Values + (if otherVals == null then {} else {otherVals})
      + (if otherKeynames == null then {} else {otherKeynames})
    }

    // No rule object is used twice.
    ghost predicate Separate()
      reads this
    {
      && (forall k, l | k in vals && l in vals && k != l :: vals[k] != vals[l])
      && (forall k | k in vals :: vals[k] != otherVals && vals[k] != otherKeynames)
      && (otherVals != null ==> otherVals != otherKeynames)
    }

    ghost function ValsView(): map<string, SV.Config>
      reads this`vals, vals.Values
    {
      map k | k in vals :: vals[k].View()
    }

    ghost function View(): State
      reads this, valScores, Rules()
    {
      State(ValsView(), ViewOf(otherVals), ViewOf(otherKeynames), valScores[..])
    }

    ghost predicate Valid()
      reads this, valScores, Rules()
    {
      Separate() && TableOk(View())
    }

    constructor ()
      ensures Valid() && fresh(valScores) && Rules() == {} && View() == EMPTY
    {
      vals := map[];
      otherVals, otherKeynames := null, null;
      valScores := new Slot[MAX_KEYS_LEARNED](i => FREE);
    }

    method FindIndex(score: Word) returns (index: int)
      requires valScores.Length == MAX_KEYS_LEARNED
      ensures index == FindScoreIndex(valScores[..], score)
    {
      for i := 0 to MAX_KEYS_LEARNED
        invariant forall j | 0 <= j < i :: valScores[j].score < score
      {
        if score <= valScores[i].score {
          FindScoreIndexIs(valScores[..], score, i - 1);
          return i - 1;
        }
      }
      FindScoreIndexIs(valScores[..], score, MAX_KEYS_LEARNED - 1);
      return MAX_KEYS_LEARNED - 1;
    }

    method SetSlot(score: Word, key: string, index: nat)
      requires index < valScores.Length
      modifies valScores
      ensures valScores[..] == SetScore(old(valScores[..]), index, Slot(score, key))
    {
      for i := 0 to index
        invariant forall j | 0 <= j < i :: valScores[j] == old(valScores[j + 1])
        invariant forall j | i <= j < valScores.Length :: valScores[j] == old(valScores[j])
      {
        valScores[i] := valScores[i + 1];
      }
      valScores[index] := Slot(score, key);
    }

    // svc is no longer the rule of a key and may become the shared rule.
    method AddSvcToOtherVals(svc: SV.SimpleValConfig)
      requires Separate() && svc !in Rules()
      modifies this`otherVals, otherVals
      ensures Separate() && (otherVals == svc || otherVals == old(otherVals))
      ensures View() == old(View()).(otherVals := View().otherVals)
      ensures ViewOf(otherVals) == Some(WithVals(old(ViewOf(otherVals)), old(svc.View())))
    {
      hide SV.Fused;
      if otherVals == null {
        otherVals := svc;
      } else {
        otherVals.Fuse(svc);
      }
    }

    method AddKeyToOtherKeynames(key: string)
      requires Separate()
      modifies this`otherKeynames, otherKeynames
      ensures Separate() && (otherKeynames == old(otherKeynames) || fresh(otherKeynames))
      ensures View() == old(View()).(otherKeynames := View().otherKeynames)
      ensures ViewOf(otherKeynames) == Some(WithKeyname(old(ViewOf(otherKeynames)), key))
    {
      hide SV.Learned, SV.Added, Scanner.ProfileOf;
      var keyname := Scanner.ProfileString(key);
      var pile := SV.Added(SV.EMPTY_PILE, keyname);
      if otherKeynames == null {
        otherKeynames := new SV.SimpleValConfig();
      }
      otherKeynames.Learn(pile);
    }

    // A known key learns in place.
    method LearnKnown(key: string, pile: SV.Pile)
      requires Separate() && key in vals
      modifies vals[key]
      ensures View() == old(View()).(vals := old(ValsView())[key := SV.Learned(old(vals[key].View()), pile)])
    {
      hide SV.Learned;
      vals[key].Learn(pile);
    }

    // A new key takes a slot; the key of slot 0 and its rule are handed back.
    method Admit(score: Word, key: string, svc: SV.SimpleValConfig, index: nat)
      returns (lowestKey: string, lowestSvc: SV.SimpleValConfig)
      requires Separate() && svc !in Rules() && key !in vals
      requires index < valScores.Length
      requires valScores[0].key != "" ==> valScores[0].key in vals
      modifies this`vals, valScores
      ensures Separate() && vals == old(vals)[key := svc]
      ensures ValsView() == old(ValsView())[key := svc.View()]
      ensures valScores[..] == SetScore(old(valScores[..]), index, Slot(score, key))
      ensures lowestKey == old(valScores[0].key)
      ensures lowestKey != "" ==> lowestKey in old(vals) && lowestSvc == old(vals[lowestKey])
    {
      lowestKey := valScores[0].key;
      lowestSvc := svc;
      if lowestKey != "" {
        lowestSvc := vals[lowestKey];
      }
      SetSlot(score, key, index);
      vals := vals[key := svc];
    }

    method Forget(key: string)
      requires Separate() && key in vals
      modifies this`vals
      ensures Separate() && vals == old(vals) - {key} && old(vals[key]) !in Rules()
      ensures View() == old(View()).(vals := old(ValsView()) - {key})
    {
      vals := vals - {key};
      assert ValsView() == old(ValsView()) - {key};
    }

    // The rule of the lowest key is merged with the rules for unknown keys.
    method Evict(lowestKey: string, lowestSvc: SV.SimpleValConfig, key: string)
      requires Separate()
      requires if key == lowestKey then key !in vals && lowestSvc !in Rules()
               else lowestKey in vals && lowestSvc == vals[lowestKey]
      modifies this`vals, this`otherVals, this`otherKeynames, otherVals, otherKeynames
      ensures Separate()
      ensures vals == if key == lowestKey then old(vals) else old(vals) - {lowestKey}
      ensures otherVals == lowestSvc || otherVals == old(otherVals)
      ensures otherKeynames == old(otherKeynames) || fresh(otherKeynames)
      ensures View() == Demote(old(View()).(vals := old(ValsView()) - {lowestKey}), old(lowestSvc.View()), lowestKey)
    {
      hide WithVals, WithKeyname;
      if key != lowestKey {
        Forget(lowestKey);
      }
      assert View() == old(View()).(vals := old(ValsView()) - {lowestKey});
      AddSvcToOtherVals(lowestSvc);
      AddKeyToOtherKeynames(lowestKey);
    }

    // A rule learned from nothing but this pile, and its score.
    static method NewRule(pile: SV.Pile) returns (svc: SV.SimpleValConfig, score: Word)
      ensures fresh(svc) && svc.View() == SV.Learned(SV.EMPTY_CONFIG, pile) && score == NewScore(pile)
    {
      hide SV.Learned, SV.Score;
      svc := new SV.SimpleValConfig();
      svc.Learn(pile);
      score := svc.GetScore();
    }

    // A new key that scored high enough.
    method LearnAdmitted(score: Word, key: string, svc: SV.SimpleValConfig, index: nat)
      requires Separate() && svc !in Rules() && key !in vals && index < valScores.Length
      requires valScores[0].key != "" ==> valScores[0].key in vals
      modifies this`vals, this`otherVals, this`otherKeynames, valScores, otherVals, otherKeynames
      ensures Separate() && fresh(Rules() - old(Rules()) - {svc})
      ensures View() ==
        var s := old(View());
        var t := s.(table := SetScore(s.table, index, Slot(score, key)), vals := s.vals[key := old(svc.View())]);
        var lowest := s.table[0].key;
        if lowest == "" then t else Demote(t.(vals := t.vals - {lowest}), s.vals[lowest], lowest)
    {
      hide SetScore, Demote;
      var lowestKey, lowestSvc := Admit(score, key, svc, index);
      if lowestKey != "" {
        Evict(lowestKey, lowestSvc, key);
      }
    }

    // The body of the loop of Learn for a key that is not known.
    method LearnNew(key: string, pile: SV.Pile)
      requires Valid() && key !in vals
      modifies this`vals, this`otherVals, this`otherKeynames, valScores, otherVals, otherKeynames
      ensures Separate() && fresh(Rules() - old(Rules()))
      ensures View() == LearnKey(old(View()), key, pile)
    {
      hide SV.Learned, NewScore, SetScore, FindScoreIndex, Sorted, DistinctKeys, Keys, LearnKey, Demote;
      ghost var s := View();
      KeyOfSlot(s.table, 0);
      LearnKeyCases(s, key, pile);
      var svc, score := NewRule(pile);
      var index := FindIndex(score);
      assert View() == s;
      if index >= 0 {
        LearnAdmitted(score, key, svc, index);
      } else if key != "" {
        Evict(key, svc, key);
      }
    }

    // The body of the loop of Learn.
    method LearnOne(key: string, pile: SV.Pile)
      requires Valid()
      modifies this`vals, this`otherVals, this`otherKeynames, valScores, Rules()
      ensures Valid() && fresh(Rules() - old(Rules()))
      ensures View() == LearnKey(old(View()), key, pile)
    {
      hide SV.Learned, TableOk;
      LearnKeyKeepsTable(View(), key, pile);
      if key in vals {
        LearnKnown(key, pile);
      } else {
        LearnNew(key, pile);
      }
    }

    // The body of the loop of Prepare.
    method PrepareOne(key: string)
      requires Separate() && valScores.Length == MAX_KEYS_LEARNED && key in vals && vals[key].score == 0
      modifies valScores, vals[key]
      ensures View() == PrepareKey(old(View()), key) && ValsView() == old(ValsView())
    {
      hide PrepareKey, FindScoreIndex, SetScore, SV.Score;
      ghost var s := View();
      PrepareKeyCases(s, key);
      var score := vals[key].GetScore();
      assert ValsView() == s.vals;
      assert View() == s;
      var index := FindIndex(score);
      if index >= 0 {
        SetSlot(score, key, index);
        assert ValsView() == s.vals;
      }
      assert View() == s.(table := valScores[..]);
    }

    // Prepare, after loading: the rules have no cached score yet. The order is the map's.
    method Prepare() returns (ghost order: seq<string>)
      requires Separate() && valScores.Length == MAX_KEYS_LEARNED
      requires forall k | k in vals :: vals[k].score == 0
      modifies valScores, vals.Values
      ensures IsOrder(order, vals.Keys)
      ensures View() == PrepareOver(old(View()), order)
    {
      hide PrepareKey, PrepareOver, IsOrder, PreparedSoFar;
      ghost var s := View();
      assert s.vals.Keys == vals.Keys;
      order := [];
      var rest := vals.Keys;
      PrepareFirst(s);
      while rest != {}
        invariant rest <= vals.Keys && PreparedSoFar(s, order, rest, View())
        invariant ValsView() == s.vals
        invariant forall k | k in rest :: vals[k].score == 0
        decreases |rest|
      {
        var key :| key in rest;
        PrepareMore(s, order, rest, View(), key);
        PrepareOne(key);
        order, rest := order + [key], rest - {key};
      }
      PrepareLast(s, order, View());
    }

    // Learn visits the keys of the pile in whatever order the map yields them.
    method Learn(pile: Pile) returns (ghost order: seq<string>)
      requires Valid()
      modifies this`vals, this`otherVals, this`otherKeynames, valScores, Rules()
      ensures Valid() && fresh(Rules() - old(Rules()))
      ensures IsOrder(order, pile.Keys)
      ensures View() == LearnOver(old(View()), pile, order)
    {
      hide LearnKey, TableOk, IsOrder;
      ghost var s := View();
      order := [];
      VisitNone(s, pile);
      if |pile| == 0 {
        assert pile.Keys == {};
        VisitedAll(s, pile, order, s);
        return;
      }
      var rest := pile.Keys;
      hide LearnOver, Visited;
      while rest != {}
        invariant Valid() && fresh(Rules() - old(Rules()))
        invariant rest <= pile.Keys && Visited(s, pile, order, rest, View())
        decreases |rest|
      {
        var key :| key in rest;
        VisitNext(s, pile, order, rest, View(), key);
        LearnOne(key, pile[key]);
        rest := rest - {key};
        order := order + [key];
      }
      VisitedAll(s, pile, order, View());
    }

    // The result is the number of rules broken; zero stands for a nil decision.
    method Decide(profile: Profile) returns (result: nat)
      ensures result == 0 <==> Accepts(View(), profile)
    {
      hide SV.Accepts, Scanner.ProfileOf;
      result := 0;
      var rest := profile.Keys;
      while rest != {}
        invariant rest <= profile.Keys
        invariant result == 0 <==> forall k | k in profile && k !in rest :: KeyAccepted(View(), k, profile[k])
        decreases |rest|
      {
        var k :| k in rest;
        rest := rest - {k};
        if k in vals {
          var child := vals[k].Decide(profile[k]);
          result := result + child;
        } else if otherKeynames == null || otherVals == null {
          result := result + 1;
        } else {
          var keyname := Scanner.ProfileString(k);
          var child := otherKeynames.Decide(keyname);
          result := result + child;
          child := otherVals.Decide(profile[k]);
          result := result + child;
        }
      }
    }
  }

  // The keys outside rest were visited in this order, which led from s to t.
  ghost predicate Visited(s: State, pile: Pile, order: seq<string>, rest: set<string>, t: State)
    requires TableOk(s)
  {
    && IsOrder(order, pile.Keys - rest)
    && t == LearnOver(s, pile, order)
  }

  lemma VisitNone(s: State, pile: Pile)
    requires TableOk(s)
    ensures Visited(s, pile, [], pile.Keys, s)
  {
  }

  lemma VisitNext(s: State, pile: Pile, order: seq<string>, rest: set<string>, t: State, key: string)
    requires TableOk(s) && TableOk(t) && rest <= pile.Keys && key in rest
    requires Visited(s, pile, order, rest, t)
    ensures Visited(s, pile, order + [key], rest - {key}, LearnKey(t, key, pile[key]))
  {
    hide LearnKey, TableOk, LearnOver;
    LearnOverSnoc(s, pile, order, key);
  }

  lemma VisitedAll(s: State, pile: Pile, order: seq<string>, t: State)
    requires TableOk(s) && Visited(s, pile, order, {}, t)
    ensures IsOrder(order, pile.Keys) && t == LearnOver(s, pile, order)
  {
    assert pile.Keys - {} == pile.Keys;
  }

  // The branches of one visit to an unknown key.
  lemma LearnKeyCases(s: State, key: string, pile: SV.Pile)
    requires TableOk(s) && key !in s.vals
    ensures var rule := SV.Learned(SV.EMPTY_CONFIG, pile);
      var index := FindScoreIndex(s.table, NewScore(pile));
      if index >= 0 then
        var t := s.(table := SetScore(s.table, index, Slot(NewScore(pile), key)), vals := s.vals[key := rule]);
        var lowest := s.table[0].key;
        if lowest == "" then LearnKey(s, key, pile) == t
        else (lowest in s.vals
              && LearnKey(s, key, pile) == Demote(t.(vals := t.vals - {lowest}), s.vals[lowest], lowest))
      else if key == "" then LearnKey(s, key, pile) == s
      else LearnKey(s, key, pile) == Demote(s.(vals := s.vals - {key}), rule, key)
  {
    hide SV.Learned, NewScore, SetScore, FindScoreIndex, Demote;
    KeyOfSlot(s.table, 0);
    assert s.vals - {key} == s.vals;
  }

  lemma {:induction false} FindScoreIndexIs(table: seq<Slot>, score: Word, index: int)
    requires -1 <= index < |table|
    requires forall j | 0 <= j <= index :: table[j].score < score
    requires index + 1 < |table| ==> score <= table[index + 1].score
    ensures FindScoreIndex(table, score) == index
  {
    if index >= 0 { FindScoreIndexIs(table[1..], score, index - 1); }
  }

  // Learning one more key at the end of an order.
  lemma {:induction false} LearnOverSnoc(s: State, pile: Pile, order: seq<string>, key: string)
    requires TableOk(s) && (forall k | k in order :: k in pile) && key in pile
    ensures forall k | k in order + [key] :: k in pile
    ensures LearnOver(s, pile, order + [key]) == LearnKey(LearnOver(s, pile, order), key, pile[key])
    decreases |order|
  {
    hide LearnKey, TableOk;
    if order == [] {
      assert ([key])[1..] == [];
      LearnKeyKeepsTable(s, key, pile[key]);
    } else {
      assert (order + [key])[1..] == order[1..] + [key];
      LearnKeyKeepsTable(s, order[0], pile[order[0]]);
      LearnOverSnoc(LearnKey(s, order[0], pile[order[0]]), pile, order[1..], key);
    }
  }

  // What the loop of Prepare keeps: order holds the keys visited.
  ghost predicate PreparedSoFar(s: State, order: seq<string>, rest: set<string>, t: State) {
    && |s.table| == MAX_KEYS_LEARNED && rest <= s.vals.Keys
    && (forall k | k in order :: k in s.vals)
    && IsOrder(order, s.vals.Keys - rest)
    && t == PrepareOver(s, order)
  }

  lemma PrepareFirst(s: State)
    requires |s.table| == MAX_KEYS_LEARNED
    ensures PreparedSoFar(s, [], s.vals.Keys, s)
  {
    assert s.vals.Keys - s.vals.Keys == {};
  }

  lemma PrepareMore(s: State, order: seq<string>, rest: set<string>, t: State, key: string)
    requires PreparedSoFar(s, order, rest, t) && key in rest && t.vals == s.vals && |t.table| == MAX_KEYS_LEARNED
    ensures PreparedSoFar(s, order + [key], rest - {key}, PrepareKey(t, key))
  {
    hide PrepareKey;
    assert s.vals.Keys - (rest - {key}) == (s.vals.Keys - rest) + {key};
    PrepareOverSnoc(s, order, key);
  }

  lemma {:induction false} PrepareOverSnoc(s: State, order: seq<string>, key: string)
    requires |s.table| == MAX_KEYS_LEARNED && (forall k | k in order :: k in s.vals) && key in s.vals
    ensures var t := PrepareOver(s, order);
      |t.table| == MAX_KEYS_LEARNED && t.vals == s.vals && PrepareOver(s, order + [key]) == PrepareKey(t, key)
    decreases |order|
  {
    if order == [] {
      assert [key][1..] == [];
    } else {
      assert (order + [key])[1..] == order[1..] + [key];
      PrepareOverSnoc(PrepareKey(s, order[0]), order[1..], key);
    }
  }

  lemma PrepareKeyCases(s: State, key: string)
    requires |s.table| == MAX_KEYS_LEARNED && key in s.vals
    ensures var score := SV.Score(s.vals[key]);
      var index := FindScoreIndex(s.table, score);
      PrepareKey(s, key) == if index >= 0 then s.(table := SetScore(s.table, index, Slot(score, key))) else s
  {
  }

  lemma PrepareLast(s: State, order: seq<string>, t: State)
    requires PreparedSoFar(s, order, {}, t)
    ensures IsOrder(order, s.vals.Keys) && t == PrepareOver(s, order)
  {
    assert s.vals.Keys - {} == s.vals.Keys;
  }
}
