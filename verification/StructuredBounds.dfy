// structuredProfiler.go: learning JSON values approves no more than it was shown.
module StructuredBounds {
  import opened Wrappers
  import opened Structured
  import KB = KeyValBounds
  import KV = KeyVal
  import Scanner
  import SV = SimpleVal

  const NEW_CONFIG := Config(Empty, None, KV.EMPTY)

  // ---------- When a pile gives up on kinds ----------

  // Two samples differ in kind, or one came as "multi".
  ghost predicate Mixed(h: History) {
    || (exists p, q | p in Samples(h) && q in Samples(h) :: p.kind != q.kind)
    || (exists p | p in Samples(h) :: p.kind.Multi?)
  }

  // Somewhere a pile without samples was merged into one that had some.
  predicate EmptyMergedIn(h: History) {
    match h
    case Fresh => false
    case Add(before, _) => EmptyMergedIn(before)
    case Merge(before, other) =>
      EmptyMergedIn(before) || EmptyMergedIn(other) || (Samples(before) != {} && Samples(other) == {})
  }

  // The kind of a pile, told from its samples.
  lemma {:induction false} KindOfPile(h: History)
    requires HistoryOk(h)
    ensures PileOf(h).kind.Empty? <==> Samples(h) == {}
    ensures PileOf(h).kind.Multi? <==> Mixed(h) || EmptyMergedIn(h)
    ensures forall p | p in Samples(h) :: PileOf(h).kind.Multi? || PileOf(h).kind == p.kind
  {
    match h
    case Fresh =>
    case Add(before, p) =>
      KindOfPile(before);
      assert p in Samples(h);
    case Merge(before, other) =>
      KindOfPile(before);
      KindOfPile(other);
      MergedKind(PileOf(before), PileOf(other));
      hide Merged;
  }

  // ---------- Runs ----------

  // One call of Learn, with a pile that has a history.
  datatype Call = Call(h: History, order: seq<string>)

  ghost predicate CallsOk(calls: seq<Call>) {
    forall i | 0 <= i < |calls| :: CallOk(calls[i])
  }

  ghost predicate CallOk(c: Call) {
    HistoryOk(c.h) && KV.IsOrder(c.order, PileOf(c.h).kv.Keys)
  }

  // What a new config becomes by a run of Learn calls.
  ghost function RunOf(calls: seq<Call>): (c: Config)
    requires CallsOk(calls)
    ensures ConfigOk(c)
  {
    if calls == [] then NEW_CONFIG
    else
      var n := |calls| - 1;
      assert CallOk(calls[n]);
      Learned(RunOf(calls[..n]), PileOf(calls[n].h), calls[n].order)
  }

  // All samples of the run, as if the piles had been merged.
  function AllOf(calls: seq<Call>): History {
    if calls == [] then Fresh else Merge(AllOf(calls[..|calls| - 1]), calls[|calls| - 1].h)
  }

  lemma {:induction false} AllOk(calls: seq<Call>)
    requires CallsOk(calls)
    ensures HistoryOk(AllOf(calls))
  {
    if calls != [] {
      AllOk(calls[..|calls| - 1]);
      assert CallOk(calls[|calls| - 1]);
    }
  }

  lemma LearnedKind(c: Config, pile: Pile, order: seq<string>)
    requires ConfigOk(c) && PileOk(pile) && (forall k | k in order :: k in pile.kv)
    ensures Learned(c, pile, order).kind == if c.kind.Empty? || c.kind == pile.kind then pile.kind else Multi
  {
    hide KV.LearnOver, SV.Learned;
  }

  // The run arrives at the kind of all its piles merged.
  lemma {:induction false} RunKind(calls: seq<Call>)
    requires CallsOk(calls)
    ensures HistoryOk(AllOf(calls)) && RunOf(calls).kind == PileOf(AllOf(calls)).kind
  {
    AllOk(calls);
    hide KV.LearnOver, SV.Learned, KV.Merged, SV.Merged;
    if calls != [] {
      var n := |calls| - 1;
      RunKind(calls[..n]);
      assert CallOk(calls[n]);
      LearnedKind(RunOf(calls[..n]), PileOf(calls[n].h), calls[n].order);
      MergedKind(PileOf(AllOf(calls[..n])), PileOf(calls[n].h));
      hide Learned, Merged;
    }
  }

  // Everything is approved exactly if samples differed in kind, or one was "multi", or nothing was
  // merged into or learned after something.
  lemma ApprovesAllExactly(calls: seq<Call>)
    requires CallsOk(calls)
    ensures (forall p | ProfileOk(p) :: Accepts(RunOf(calls), p))
            <==> Mixed(AllOf(calls)) || EmptyMergedIn(AllOf(calls))
  {
    hide KV.Accepts, SV.Accepts, RunOf, AllOf, PileOf, Mixed, EmptyMergedIn;
    RunKind(calls);
    KindOfPile(AllOf(calls));
    var c := RunOf(calls);
    if !c.kind.Multi? {
      var p := Profile(if c.kind.Empty? then Object else Empty, [], map[]);
      assert ProfileOk(p) && !Accepts(c, p);
    }
  }

  // Otherwise a value is approved only if its kind is the one kind of all samples, and nothing but
  // null is approved before there was a sample.
  lemma KindBound(calls: seq<Call>, p: Profile)
    requires CallsOk(calls) && ProfileOk(p) && Accepts(RunOf(calls), p)
    requires !Mixed(AllOf(calls)) && !EmptyMergedIn(AllOf(calls))
    ensures Samples(AllOf(calls)) == {} ==> p.kind == Empty
    ensures forall q | q in Samples(AllOf(calls)) :: p.kind == q.kind
  {
    hide KV.Accepts, SV.Accepts, RunOf, AllOf, PileOf, Mixed, EmptyMergedIn;
    RunKind(calls);
    KindOfPile(AllOf(calls));
  }

  // ---------- Simple values ----------

  // Every item of an array, or the one value of a scalar, is accepted.
  ghost predicate ItemsWithin(p: Profile, e: SV.Config)
    requires ProfileOk(p)
  {
    && (p.kind.Array? ==> forall v | v in p.vals :: SV.Accepts(e, v))
    && (Scalar(p.kind) ==> SV.Accepts(e, p.vals[0]))
  }

  lemma ItemsAre(p: Profile, e: SV.Config)
    requires ProfileOk(p) && Simple(p.kind)
    ensures ItemsWithin(p, e) <==> forall v | v in Items(p) :: SV.Accepts(e, v)
  {
    hide SV.Accepts;
  }

  ghost predicate SamplesWithin(h: History, e: SV.Config)
    requires HistoryOk(h)
  {
    forall p | p in Samples(h) :: ItemsWithin(p, e)
  }

  predicate ValBelow(pile: Pile, e: SV.Config)
    requires PileOk(pile)
  {
    Simple(pile.kind) ==> SV.PileBelow(pile.val.value, e)
  }

  lemma {:induction false} ItemsBelow(pile: SV.Pile, items: seq<Scanner.Profile>, e: SV.Config)
    requires SV.PileBelow(pile, e) && forall v | v in items :: SV.Accepts(e, v)
    ensures SV.PileBelow(AddItems(pile, items), e)
  {
    hide SV.PileBelow, SV.Added, SV.Accepts;
    if items != [] {
      var n := |items| - 1;
      assert items[n] in items && forall v | v in items[..n] :: v in items;
      ItemsBelow(pile, items[..n], e);
      KB.AddedBelow(AddItems(pile, items[..n]), items[n], e);
    }
  }

  lemma AddedBelow(pile: Pile, p: Profile, e: SV.Config)
    requires PileOk(pile) && ProfileOk(p) && ValBelow(pile, e) && ItemsWithin(p, e)
    ensures ValBelow(Added(pile, p), e)
  {
    hide SV.PileBelow, SV.Accepts, AddItems, Items, KV.Added;
    KB.EmptyBelow(e);
    if Simple(p.kind) {
      ItemsAre(p, e);
      ItemsBelow(SV.EMPTY_PILE, Items(p), e);
      if Simple(pile.kind) { ItemsBelow(pile.val.value, Items(p), e); }
    }
  }

  lemma MergedBelow(pile: Pile, other: Pile, e: SV.Config)
    requires PileOk(pile) && PileOk(other) && ValBelow(pile, e) && ValBelow(other, e)
    ensures ValBelow(Merged(pile, other), e)
  {
    hide SV.PileBelow, SV.Merged, KV.Merged;
    KB.EmptyBelow(e);
    if Simple(other.kind) {
      KB.MergedBelow(SV.EMPTY_PILE, other.val.value, e);
      if Simple(pile.kind) { KB.MergedBelow(pile.val.value, other.val.value, e); }
    }
  }

  lemma {:induction false} HistoryBelow(h: History, e: SV.Config)
    requires HistoryOk(h) && SamplesWithin(h, e)
    ensures ValBelow(PileOf(h), e)
  {
    hide ItemsWithin, SV.PileBelow, Added, Merged;
    match h
    case Fresh =>
    case Add(before, p) =>
      assert p in Samples(h);
      HistoryBelow(before, e);
      AddedBelow(PileOf(before), p, e);
    case Merge(before, other) =>
      HistoryBelow(before, e);
      HistoryBelow(other, e);
      MergedBelow(PileOf(before), PileOf(other), e);
  }

  predicate RuleBelow(c: Config, e: SV.Config)
    requires ConfigOk(c)
  {
    Simple(c.kind) ==> SV.Leq(c.val.value, e)
  }

  lemma LearnedBelow(c: Config, pile: Pile, order: seq<string>, e: SV.Config)
    requires ConfigOk(c) && PileOk(pile) && (forall k | k in order :: k in pile.kv)
    requires RuleBelow(c, e) && ValBelow(pile, e)
    ensures RuleBelow(Learned(c, pile, order), e)
  {
    hide SV.PileBelow, SV.Learned, SV.Leq, KV.LearnOver;
    KB.EmptyBelow(e);
    if Simple(pile.kind) {
      SV.LearnedBelow(SV.EMPTY_CONFIG, pile.val.value, e);
      if Simple(c.kind) { SV.LearnedBelow(c.val.value, pile.val.value, e); }
    }
  }

  lemma {:induction false} RunBelow(calls: seq<Call>, e: SV.Config)
    requires CallsOk(calls) && HistoryOk(AllOf(calls)) && SamplesWithin(AllOf(calls), e)
    ensures RuleBelow(RunOf(calls), e)
  {
    hide Learned, ItemsWithin, SV.Leq, PileOf;
    if calls != [] {
      var n := |calls| - 1;
      assert CallOk(calls[n]);
      RunBelow(calls[..n], e);
      HistoryBelow(calls[n].h, e);
      LearnedBelow(RunOf(calls[..n]), PileOf(calls[n].h), calls[n].order, e);
    }
  }

  // An item of an approved array or scalar is accepted by every rule that accepts all items shown.
  lemma ItemsBound(calls: seq<Call>, e: SV.Config, p: Profile)
    requires CallsOk(calls) && HistoryOk(AllOf(calls)) && SamplesWithin(AllOf(calls), e)
    requires ProfileOk(p) && Simple(p.kind) && Accepts(RunOf(calls), p) && !RunOf(calls).kind.Multi?
    ensures ItemsWithin(p, e)
  {
    ItemsAre(p, e);
    hide SV.Leq, SV.Accepts, RunOf, AllOf, PileOf, SamplesWithin;
    RunBelow(calls, e);
    forall v | v in Items(p) ensures SV.Accepts(e, v) {
      KB.RuleBelow(RunOf(calls).val.value, e, v);
    }
  }

  // ---------- Objects ----------

  // What was shown under each key is accepted by the rule that goes with the key, and the names of
  // all keys shown by the rule for names.
  ghost predicate FieldsWithin(p: Profile, rule: string -> SV.Config, names: SV.Config) {
    p.kind.Object? ==>
      KB.ProfileWithin(p.kv, rule) && forall k | k in p.kv :: SV.Accepts(names, Scanner.ProfileOf(k))
  }

  ghost predicate ObjectsWithin(h: History, rule: string -> SV.Config, names: SV.Config) {
    forall p | p in Samples(h) :: FieldsWithin(p, rule, names)
  }

  ghost predicate KvWithin(kv: KV.Pile, rule: string -> SV.Config, names: SV.Config) {
    KB.PileWithin(kv, rule) && forall k | k in kv :: SV.Accepts(names, Scanner.ProfileOf(k))
  }

  lemma AddedWithin(pile: Pile, p: Profile, rule: string -> SV.Config, names: SV.Config)
    requires PileOk(pile) && ProfileOk(p) && KvWithin(pile.kv, rule, names) && FieldsWithin(p, rule, names)
    ensures KvWithin(Added(pile, p).kv, rule, names)
  {
    hide KB.PileWithin, KB.ProfileWithin, SV.Accepts, SV.Added, AddItems;
    if p.kind.Object? { KB.AddedWithin(pile.kv, p.kv, rule); }
  }

  lemma MergedFields(pile: Pile, other: Pile)
    requires PileOk(pile) && PileOk(other)
    ensures Merged(pile, other).kv == pile.kv || Merged(pile, other).kv == KV.Merged(pile.kv, other.kv)
    ensures KV.Merged(pile.kv, other.kv).Keys == pile.kv.Keys + other.kv.Keys
  {
    hide SV.Merged;
  }

  lemma MergedWithin(pile: Pile, other: Pile, rule: string -> SV.Config, names: SV.Config)
    requires PileOk(pile) && PileOk(other) && KvWithin(pile.kv, rule, names) && KvWithin(other.kv, rule, names)
    ensures KvWithin(Merged(pile, other).kv, rule, names)
  {
    hide KB.PileWithin, SV.Accepts, SV.Merged, Merged, KV.Merged, Scanner.ProfileOf;
    MergedFields(pile, other);
    KB.MergedWithin(pile.kv, other.kv, rule);
  }

  lemma {:induction false} HistoryWithin(h: History, rule: string -> SV.Config, names: SV.Config)
    requires HistoryOk(h) && ObjectsWithin(h, rule, names)
    ensures KvWithin(PileOf(h).kv, rule, names)
  {
    hide FieldsWithin, KvWithin, Added, Merged;
    match h
    case Fresh => NothingWithin(rule, names);
    case Add(before, p) =>
      assert p in Samples(h);
      HistoryWithin(before, rule, names);
      AddedWithin(PileOf(before), p, rule, names);
    case Merge(before, other) =>
      HistoryWithin(before, rule, names);
      HistoryWithin(other, rule, names);
      MergedWithin(PileOf(before), PileOf(other), rule, names);
  }

  lemma NothingWithin(rule: string -> SV.Config, names: SV.Config)
    ensures KvWithin(map[], rule, names)
  {
  }

  ghost predicate StateWithin(s: KV.State, rule: string -> SV.Config, names: SV.Config) {
    KB.RulesWithin(s, rule) && KB.NamesBelow(s, names)
  }

  lemma LearnedWithin(c: Config, pile: Pile, order: seq<string>, rule: string -> SV.Config, names: SV.Config)
    requires ConfigOk(c) && PileOk(pile) && (forall k | k in order :: k in pile.kv)
    requires StateWithin(c.kv, rule, names) && KvWithin(pile.kv, rule, names)
    ensures StateWithin(Learned(c, pile, order).kv, rule, names)
  {
    hide KB.RulesWithin, KB.NamesBelow, KB.PileWithin, SV.Accepts, KV.LearnOver, SV.Learned;
    if pile.kind.Object? {
      KB.LearnRules(c.kv, pile.kv, order, rule);
      KB.LearnNames(c.kv, pile.kv, order, names);
    }
  }

  lemma {:induction false} RunWithin(calls: seq<Call>, rule: string -> SV.Config, names: SV.Config)
    requires CallsOk(calls) && ObjectsWithin(AllOf(calls), rule, names)
    ensures StateWithin(RunOf(calls).kv, rule, names)
  {
    hide Learned, FieldsWithin, PileOf, KvWithin;
    if calls != [] {
      var n := |calls| - 1;
      hide StateWithin;
      assert CallOk(calls[n]);
      RunWithin(calls[..n], rule, names);
      HistoryWithin(calls[n].h, rule, names);
      LearnedWithin(RunOf(calls[..n]), PileOf(calls[n].h), calls[n].order, rule, names);
    }
  }

  lemma LearnedOthers(c: Config, pile: Pile, order: seq<string>,
                      rule: string -> SV.Config, names: SV.Config, e: SV.Config)
    requires ConfigOk(c) && PileOk(pile) && (forall k | k in order :: k in pile.kv) && (forall k :: rule(k) == e)
    requires StateWithin(c.kv, rule, names) && KvWithin(pile.kv, rule, names) && KB.OthersBelow(c.kv, e)
    ensures KB.OthersBelow(Learned(c, pile, order).kv, e)
  {
    hide KB.RulesWithin, KB.NamesBelow, KB.PileWithin, KB.OthersBelow, SV.Accepts, KV.LearnOver, SV.Learned;
    if pile.kind.Object? {
      KB.LearnOthers(c.kv, pile.kv, order, rule, e);
    }
  }

  lemma {:induction false} RunOthers(calls: seq<Call>, rule: string -> SV.Config, names: SV.Config, e: SV.Config)
    requires CallsOk(calls) && ObjectsWithin(AllOf(calls), rule, names) && (forall k :: rule(k) == e)
    ensures KB.OthersBelow(RunOf(calls).kv, e)
  {
    hide Learned, FieldsWithin, PileOf, KvWithin, StateWithin;
    if calls != [] {
      var n := |calls| - 1;
      hide KB.OthersBelow;
      assert CallOk(calls[n]);
      RunWithin(calls[..n], rule, names);
      RunOthers(calls[..n], rule, names, e);
      HistoryWithin(calls[n].h, rule, names);
      LearnedOthers(RunOf(calls[..n]), PileOf(calls[n].h), calls[n].order, rule, names, e);
    }
  }

  // The keys of an approved object have names that every rule for the names of all keys shown
  // accepts, and values that every rule for all values shown accepts.
  lemma FieldsBound(calls: seq<Call>, names: SV.Config, e: SV.Config, p: Profile)
    requires CallsOk(calls) && ObjectsWithin(AllOf(calls), k => e, names)
    requires ProfileOk(p) && p.kind.Object? && Accepts(RunOf(calls), p) && !RunOf(calls).kind.Multi?
    ensures forall k | k in p.kv :: SV.Accepts(names, Scanner.ProfileOf(k)) && SV.Accepts(e, p.kv[k])
  {
    hide SV.Accepts, SV.Leq, RunOf, AllOf, PileOf, ObjectsWithin;
    var rule := (k: string) => e;
    var s := RunOf(calls).kv;
    RunWithin(calls, rule, names);
    RunOthers(calls, rule, names, e);
    forall k | k in p.kv ensures SV.Accepts(names, Scanner.ProfileOf(k)) && SV.Accepts(e, p.kv[k]) {
      if k in s.vals {
        KB.RuleBelow(s.vals[k], rule(k), p.kv[k]);
      } else {
        KB.RuleBelow(s.otherKeynames.value, names, Scanner.ProfileOf(k));
        KB.RuleBelow(s.otherVals.value, e, p.kv[k]);
      }
    }
  }

  // And its known keys have values that every rule for the values shown under that key accepts.
  lemma KnownFieldsBound(calls: seq<Call>, rule: string -> SV.Config, names: SV.Config, p: Profile)
    requires CallsOk(calls) && ObjectsWithin(AllOf(calls), rule, names)
    requires ProfileOk(p) && p.kind.Object? && Accepts(RunOf(calls), p) && !RunOf(calls).kind.Multi?
    ensures forall k | k in p.kv && k in RunOf(calls).kv.vals :: SV.Accepts(rule(k), p.kv[k])
  {
    hide SV.Accepts, SV.Leq, RunOf, AllOf, PileOf, ObjectsWithin;
    RunWithin(calls, rule, names);
    forall k | k in p.kv && k in RunOf(calls).kv.vals ensures SV.Accepts(rule(k), p.kv[k]) {
      KB.RuleBelow(RunOf(calls).kv.vals[k], rule(k), p.kv[k]);
    }
  }
}
