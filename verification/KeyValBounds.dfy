// keyval.go: learning approves no more than it was shown. The laws here bound what a config
// accepts from above, by any rule that accepts all the samples.
module KeyValBounds {
  import opened Bits
  import opened KeyVal
  import FS = FlagSlice
  import Limit
  import Scanner
  import SV = SimpleVal

  // ---------- Simple values ----------

  lemma EmptyBelow(e: SV.Config)
    ensures SV.Leq(SV.EMPTY_CONFIG, e) && SV.PileBelow(SV.EMPTY_PILE, e)
  {
  }

  lemma AddedBelow(pile: SV.Pile, p: Scanner.Profile, e: SV.Config)
    requires SV.PileBelow(pile, e) && SV.Accepts(e, p)
    ensures SV.PileBelow(SV.Added(pile, p), e)
  {
    OrLeast(pile.flags, p.flags, e.flags);
    FS.MergedIsJoin(pile.unicodeFlags, p.unicodeFlags);
  }

  lemma MergedBelow(pile: SV.Pile, other: SV.Pile, e: SV.Config)
    requires SV.PileBelow(pile, e) && SV.PileBelow(other, e)
    ensures SV.PileBelow(SV.Merged(pile, other), e)
  {
    OrLeast(pile.flags, other.flags, e.flags);
    FS.MergedIsJoin(pile.unicodeFlags, other.unicodeFlags);
  }

  lemma RuleBelow(rule: SV.Config, e: SV.Config, v: Scanner.Profile)
    requires SV.Leq(rule, e) && SV.Accepts(rule, v)
    ensures SV.Accepts(e, v)
  {
    SV.LeqIsInclusion(rule, e);
  }

  // ---------- Piles ----------

  // What the pile holds under each key was accepted by the rule for that key.
  ghost predicate PileWithin(pile: Pile, rule: string -> SV.Config) {
    forall k | k in pile :: SV.PileBelow(pile[k], rule(k))
  }

  ghost predicate ProfileWithin(p: Profile, rule: string -> SV.Config) {
    forall k | k in p :: SV.Accepts(rule(k), p[k])
  }

  lemma AddedWithin(pile: Pile, p: Profile, rule: string -> SV.Config)
    requires PileWithin(pile, rule) && ProfileWithin(p, rule)
    ensures PileWithin(Added(pile, p), rule)
  {
    hide SV.PileBelow, SV.Added, SV.Accepts;
    forall k | k in p ensures SV.PileBelow(SV.Added(PileAt(pile, k), p[k]), rule(k)) {
      EmptyBelow(rule(k));
      AddedBelow(PileAt(pile, k), p[k], rule(k));
    }
  }

  lemma MergedWithin(pile: Pile, other: Pile, rule: string -> SV.Config)
    requires PileWithin(pile, rule) && PileWithin(other, rule)
    ensures PileWithin(Merged(pile, other), rule)
  {
    hide SV.PileBelow, SV.Merged;
    forall k | k in other ensures SV.PileBelow(SV.Merged(PileAt(pile, k), other[k]), rule(k)) {
      EmptyBelow(rule(k));
      MergedBelow(PileAt(pile, k), other[k], rule(k));
    }
  }

  lemma {:induction false} HistoryWithin(h: History, rule: string -> SV.Config)
    requires forall p | p in Samples(h) :: ProfileWithin(p, rule)
    ensures PileWithin(PileOf(h), rule)
  {
    hide PileWithin, ProfileWithin, Added, Merged;
    match h
    case Fresh => NothingWithin(rule);
    case Add(before, p) =>
      HistoryWithin(before, rule);
      assert p in Samples(h);
      AddedWithin(PileOf(before), p, rule);
    case Merge(before, other) =>
      HistoryWithin(before, rule);
      HistoryWithin(other, rule);
      MergedWithin(PileOf(before), PileOf(other), rule);
  }

  lemma NothingWithin(rule: string -> SV.Config)
    ensures PileWithin(map[], rule)
  {
  }

  // The keys of a pile are the keys of its samples.
  lemma {:induction false} KeysOfHistory(h: History, k: string)
    requires k in PileOf(h)
    ensures exists p | p in Samples(h) :: k in p
  {
    match h
    case Fresh =>
    case Add(before, p) =>
      assert p in Samples(h);
      if k !in p {
        KeysOfHistory(before, k);
        var q :| q in Samples(before) && k in q;
        assert q in Samples(h);
      }
    case Merge(before, other) =>
      if k in PileOf(other) {
        KeysOfHistory(other, k);
        var q :| q in Samples(other) && k in q;
        assert q in Samples(h);
      } else {
        KeysOfHistory(before, k);
        var q :| q in Samples(before) && k in q;
        assert q in Samples(h);
      }
  }

  // ---------- Rules ----------

  // The rule of every known key is below its bound.
  ghost predicate RulesWithin(s: State, rule: string -> SV.Config) {
    forall k | k in s.vals :: SV.Leq(s.vals[k], rule(k))
  }

  // The rule for the values of other keys is below e.
  predicate OthersBelow(s: State, e: SV.Config) {
    s.otherVals.Some? ==> SV.Leq(s.otherVals.value, e)
  }

  // All keys ever known are accepted by e as names, and the rule for other names is below e.
  ghost predicate NamesBelow(s: State, e: SV.Config) {
    && (forall k | k in s.vals :: SV.Accepts(e, Scanner.ProfileOf(k)))
    && (s.otherKeynames.Some? ==> SV.Leq(s.otherKeynames.value, e))
  }

  lemma VisitRules(s: State, key: string, pile: SV.Pile, rule: string -> SV.Config)
    requires TableOk(s) && RulesWithin(s, rule) && SV.PileBelow(pile, rule(key))
    ensures RulesWithin(LearnKey(s, key, pile), rule)
  {
    hide SV.Learned, SV.Leq, SV.PileBelow, SV.Fused, SV.Score, SetScore;
    EmptyBelow(rule(key));
    SV.LearnedBelow(SV.EMPTY_CONFIG, pile, rule(key));
    if key in s.vals { SV.LearnedBelow(s.vals[key], pile, rule(key)); }
  }

  lemma VisitOthers(s: State, key: string, pile: SV.Pile, rule: string -> SV.Config, e: SV.Config)
    requires TableOk(s) && OthersBelow(s, e) && RulesWithin(s, rule) && (forall k :: rule(k) == e)
    requires SV.PileBelow(pile, e)
    ensures OthersBelow(LearnKey(s, key, pile), e)
  {
    hide SV.Learned, SV.Leq, SV.PileBelow, SV.Fused, SV.Score, SetScore;
    var svc := SV.Learned(SV.EMPTY_CONFIG, pile);
    EmptyBelow(e);
    SV.LearnedBelow(SV.EMPTY_CONFIG, pile, e);
    KeyOfSlot(s.table, 0);
    if s.otherVals.Some? {
      SV.FusedIsJoin(s.otherVals.value, svc);
      if s.table[0].key != "" { SV.FusedIsJoin(s.otherVals.value, s.vals[s.table[0].key]); }
    }
  }

  lemma VisitNames(s: State, key: string, pile: SV.Pile, e: SV.Config)
    requires TableOk(s) && NamesBelow(s, e) && SV.Accepts(e, Scanner.ProfileOf(key))
    ensures NamesBelow(LearnKey(s, key, pile), e)
  {
    hide SV.Learned, SV.Leq, SV.PileBelow, SV.Fused, SV.Score, SetScore, SV.Accepts, SV.Added;
    KeyOfSlot(s.table, 0);
    NameBelow(s, key, e);
    if s.table[0].key != "" { NameBelow(s, s.table[0].key, e); }
  }

  lemma NameBelow(s: State, key: string, e: SV.Config)
    requires NamesBelow(s, e) && SV.Accepts(e, Scanner.ProfileOf(key))
    ensures SV.Leq(WithKeyname(s.otherKeynames, key), e)
  {
    hide SV.Learned, SV.Leq, SV.PileBelow, SV.Accepts, SV.Added;
    EmptyBelow(e);
    AddedBelow(SV.EMPTY_PILE, Scanner.ProfileOf(key), e);
    var names := if s.otherKeynames.None? then SV.EMPTY_CONFIG else s.otherKeynames.value;
    SV.LearnedBelow(names, SV.Added(SV.EMPTY_PILE, Scanner.ProfileOf(key)), e);
  }

  lemma {:induction false} LearnRules(s: State, pile: Pile, order: seq<string>, rule: string -> SV.Config)
    requires TableOk(s) && (forall k | k in order :: k in pile) && RulesWithin(s, rule) && PileWithin(pile, rule)
    ensures RulesWithin(LearnOver(s, pile, order), rule)
    decreases |order|
  {
    hide LearnKey, RulesWithin, SV.PileBelow;
    if order != [] {
      LearnKeyKeepsTable(s, order[0], pile[order[0]]);
      VisitRules(s, order[0], pile[order[0]], rule);
      LearnRules(LearnKey(s, order[0], pile[order[0]]), pile, order[1..], rule);
    }
  }

  lemma {:induction false} LearnOthers(s: State, pile: Pile, order: seq<string>,
                                       rule: string -> SV.Config, e: SV.Config)
    requires TableOk(s) && (forall k | k in order :: k in pile) && RulesWithin(s, rule) && PileWithin(pile, rule)
    requires (forall k :: rule(k) == e) && OthersBelow(s, e)
    ensures OthersBelow(LearnOver(s, pile, order), e)
    decreases |order|
  {
    hide LearnKey, RulesWithin, OthersBelow, SV.PileBelow;
    if order != [] {
      LearnKeyKeepsTable(s, order[0], pile[order[0]]);
      VisitRules(s, order[0], pile[order[0]], rule);
      VisitOthers(s, order[0], pile[order[0]], rule, e);
      LearnOthers(LearnKey(s, order[0], pile[order[0]]), pile, order[1..], rule, e);
    }
  }

  lemma {:induction false} LearnNames(s: State, pile: Pile, order: seq<string>, e: SV.Config)
    requires TableOk(s) && (forall k | k in order :: k in pile) && NamesBelow(s, e)
    requires forall k | k in order :: SV.Accepts(e, Scanner.ProfileOf(k))
    ensures NamesBelow(LearnOver(s, pile, order), e)
    decreases |order|
  {
    hide LearnKey, NamesBelow, SV.Accepts;
    if order != [] {
      LearnKeyKeepsTable(s, order[0], pile[order[0]]);
      VisitNames(s, order[0], pile[order[0]], e);
      LearnNames(LearnKey(s, order[0], pile[order[0]]), pile, order[1..], e);
    }
  }

  // ---------- Whole runs ----------

  // Each call brings a pile with a history.
  ghost predicate Brought(calls: seq<Call>, hs: seq<History>) {
    && |calls| == |hs|
    && forall i | 0 <= i < |calls| :: CallOk(calls[i]) && calls[i].pile == PileOf(hs[i])
  }

  // The profile was put into a pile of the run.
  ghost predicate Shown(hs: seq<History>, p: Profile) {
    exists i | 0 <= i < |hs| :: p in Samples(hs[i])
  }

  // What holds of all samples of a run holds of all samples of its last pile and of those before.
  lemma ShownSplit(hs: seq<History>, n: nat)
    requires |hs| == n + 1
    ensures forall p | Shown(hs[..n], p) :: Shown(hs, p)
    ensures forall p | p in Samples(hs[n]) :: Shown(hs, p)
  {
  }

  lemma {:induction false} RunRules(calls: seq<Call>, hs: seq<History>, rule: string -> SV.Config)
    requires Brought(calls, hs) && forall p | Shown(hs, p) :: ProfileWithin(p, rule)
    ensures RulesWithin(RunOf(calls), rule)
  {
    hide LearnOver, ProfileWithin, PileWithin, PileOf, Samples, Shown, CallOk;
    if calls != [] {
      var n := |calls| - 1;
      ShownSplit(hs, n);
      RunRules(calls[..n], hs[..n], rule);
      HistoryWithin(hs[n], rule);
      LastCall(calls);
      LearnRules(RunOf(calls[..n]), calls[n].pile, calls[n].order, rule);
    }
  }

  lemma LastCall(calls: seq<Call>)
    requires calls != [] && forall i | 0 <= i < |calls| :: CallOk(calls[i])
    ensures var n := |calls| - 1;
      && (forall k | k in calls[n].order :: k in calls[n].pile)
      && (forall k | k in calls[n].pile :: k in calls[n].order)
      && RunOf(calls) == LearnOver(RunOf(calls[..n]), calls[n].pile, calls[n].order)
  {
    hide LearnOver;
    assert CallOk(calls[|calls| - 1]);
  }

  lemma {:induction false} RunOthers(calls: seq<Call>, hs: seq<History>, rule: string -> SV.Config, e: SV.Config)
    requires Brought(calls, hs) && (forall k :: rule(k) == e) && forall p | Shown(hs, p) :: ProfileWithin(p, rule)
    ensures OthersBelow(RunOf(calls), e)
  {
    hide LearnOver, ProfileWithin, PileWithin, RulesWithin, PileOf, Samples, Shown, CallOk;
    if calls != [] {
      var n := |calls| - 1;
      ShownSplit(hs, n);
      RunOthers(calls[..n], hs[..n], rule, e);
      RunRules(calls[..n], hs[..n], rule);
      HistoryWithin(hs[n], rule);
      LastCall(calls);
      LearnOthers(RunOf(calls[..n]), calls[n].pile, calls[n].order, rule, e);
    }
  }

  lemma {:induction false} RunNames(calls: seq<Call>, hs: seq<History>, e: SV.Config)
    requires Brought(calls, hs)
    requires forall p, k | Shown(hs, p) && k in p :: SV.Accepts(e, Scanner.ProfileOf(k))
    ensures NamesBelow(RunOf(calls), e)
  {
    hide LearnOver, SV.Accepts, PileOf, Samples, Shown, CallOk;
    if calls != [] {
      var n := |calls| - 1;
      ShownSplit(hs, n);
      RunNames(calls[..n], hs[..n], e);
      LastCall(calls);
      forall k | k in calls[n].order ensures SV.Accepts(e, Scanner.ProfileOf(k)) {
        KeysOfHistory(hs[n], k);
      }
      LearnNames(RunOf(calls[..n]), calls[n].pile, calls[n].order, e);
    }
  }

  // ---------- What is approved, bounded from above ----------

  // The name of an unknown key is approved only if every rule that accepts the names of all keys
  // shown accepts it too.
  lemma OtherNamesBound(calls: seq<Call>, hs: seq<History>, e: SV.Config, key: string, v: Scanner.Profile)
    requires Brought(calls, hs)
    requires forall p, k | Shown(hs, p) && k in p :: SV.Accepts(e, Scanner.ProfileOf(k))
    requires OthersAccept(RunOf(calls), key, v)
    ensures SV.Accepts(e, Scanner.ProfileOf(key))
  {
    hide SV.Accepts, SV.Leq, RunOf, Shown, CallOk;
    RunNames(calls, hs, e);
    RuleBelow(RunOf(calls).otherKeynames.value, e, Scanner.ProfileOf(key));
  }

  // A value is approved under any key, known or not, only if every rule that accepts all values
  // shown accepts it too.
  lemma ValuesBound(calls: seq<Call>, hs: seq<History>, e: SV.Config, key: string, v: Scanner.Profile)
    requires Brought(calls, hs)
    requires forall p, k | Shown(hs, p) && k in p :: SV.Accepts(e, p[k])
    requires KeyAccepted(RunOf(calls), key, v)
    ensures SV.Accepts(e, v)
  {
    hide SV.Accepts, SV.Leq, RunOf, Shown, CallOk;
    var rule := (k: string) => e;
    RunRules(calls, hs, rule);
    RunOthers(calls, hs, rule, e);
    var s := RunOf(calls);
    if key in s.vals {
      RuleBelow(s.vals[key], e, v);
    } else {
      RuleBelow(s.otherVals.value, e, v);
    }
  }

  // The keys of an approved profile have names that every rule for the names of all keys shown
  // accepts, and values that every rule for all values shown accepts.
  lemma ProfileBound(calls: seq<Call>, hs: seq<History>, names: SV.Config, e: SV.Config, profile: Profile)
    requires Brought(calls, hs)
    requires forall p, k | Shown(hs, p) && k in p :: SV.Accepts(names, Scanner.ProfileOf(k)) && SV.Accepts(e, p[k])
    requires Accepts(RunOf(calls), profile)
    ensures forall k | k in profile :: SV.Accepts(names, Scanner.ProfileOf(k)) && SV.Accepts(e, profile[k])
  {
    hide SV.Accepts, RunOf, Shown, CallOk;
    forall k | k in profile ensures SV.Accepts(names, Scanner.ProfileOf(k)) && SV.Accepts(e, profile[k]) {
      ValuesBound(calls, hs, e, k, profile[k]);
      if k in RunOf(calls).vals {
        KnownKeysShown(calls, hs, k);
      } else {
        OtherNamesBound(calls, hs, names, k, profile[k]);
      }
    }
  }

  // A value is approved under a known key only if every rule that accepts what was shown under that
  // key accepts it, whatever rules go with the other keys.
  lemma KnownKeyBound(calls: seq<Call>, hs: seq<History>, rule: string -> SV.Config, key: string, v: Scanner.Profile)
    requires Brought(calls, hs)
    requires forall p, k | Shown(hs, p) && k in p :: SV.Accepts(rule(k), p[k])
    requires key in RunOf(calls).vals && KeyAccepted(RunOf(calls), key, v)
    ensures SV.Accepts(rule(key), v)
  {
    hide SV.Accepts, SV.Leq, RunOf, Shown, CallOk;
    RunRules(calls, hs, rule);
    RuleBelow(RunOf(calls).vals[key], rule(key), v);
  }

  // A key is known only if it was shown.
  lemma {:induction false} KnownKeysShown(calls: seq<Call>, hs: seq<History>, key: string)
    requires Brought(calls, hs) && key in RunOf(calls).vals
    ensures exists p :: Shown(hs, p) && key in p
  {
    hide LearnOver, PileOf, Samples, Shown, CallOk;
    if calls != [] {
      var n := |calls| - 1;
      ShownSplit(hs, n);
      LastCall(calls);
      NewKeys(RunOf(calls[..n]), calls[n].pile, calls[n].order);
      if key in calls[n].pile {
        KeysOfHistory(hs[n], key);
      } else {
        KnownKeysShown(calls[..n], hs[..n], key);
      }
    }
  }

  lemma {:induction false} NewKeys(s: State, pile: Pile, order: seq<string>)
    requires TableOk(s) && (forall k | k in order :: k in pile)
    ensures LearnOver(s, pile, order).vals.Keys <= s.vals.Keys + pile.Keys
    decreases |order|
  {
    hide LearnKey, TableOk, SetScore;
    if order != [] {
      LearnKeyKeepsTable(s, order[0], pile[order[0]]);
      LearnKeyTable(s, order[0], pile[order[0]]);
      NewKeys(LearnKey(s, order[0], pile[order[0]]), pile, order[1..]);
    }
  }
}
