// structuredProfiler.go: JSON values. Piles and configs remember the kind of value they saw
// and fall back to the kind "multi", which allows everything, once kinds disagree.
module Structured {
  import opened Wrappers
  import KV = KeyVal
  import Scanner
  import SV = SimpleVal

  datatype Kind = Empty | Object | Array | Number | Boolean | String | Multi

  datatype Profile = Profile(kind: Kind, vals: seq<Scanner.Profile>, kv: KV.Profile)
  datatype Pile = Pile(kind: Kind, val: Option<SV.Pile>, kv: KV.Pile)
  datatype Config = Config(kind: Kind, val: Option<SV.Config>, kv: KV.State)

  const EMPTY_PILE := Pile(Empty, None, map[])

  predicate Scalar(kind: Kind) {
    kind.Number? || kind.Boolean? || kind.String?
  }

  // Kinds whose values are profiled as simple values.
  predicate Simple(kind: Kind) {
    kind.Array? || Scalar(kind)
  }

  // Profile() fills in a value for scalars; the code indexes it without a check.
  predicate ProfileOk(p: Profile) {
    Scalar(p.kind) ==> p.vals != []
  }

  predicate PileOk(pile: Pile) {
    Simple(pile.kind) ==> pile.val.Some?
  }

  predicate ConfigOk(c: Config) {
    (Simple(c.kind) ==> c.val.Some?) && KV.TableOk(c.kv)
  }

  // ---------- Piles ----------

  // The values a simple profile contributes: every item of an array, the one value of a scalar.
  function Items(p: Profile): seq<Scanner.Profile>
    requires Simple(p.kind) && ProfileOk(p)
  {
    if p.kind.Array? then p.vals else [p.vals[0]]
  }

  function AddItems(pile: SV.Pile, items: seq<Scanner.Profile>): SV.Pile {
    if items == [] then pile
    else SV.Added(AddItems(pile, items[..|items| - 1]), items[|items| - 1])
  }

  // StructuredPile.Add
  function Added(pile: Pile, p: Profile): (r: Pile)
    requires PileOk(pile) && ProfileOk(p)
    ensures PileOk(r)
  {
    if pile.kind.Empty? && p.kind.Empty? then pile
    else
      var q :=
        if !pile.kind.Empty? then pile
        else if p.kind.Object? then pile.(kind := Object)
        else if Simple(p.kind) then pile.(kind := p.kind, val := Some(SV.EMPTY_PILE))
        else pile;
      if q.kind != p.kind then q.(kind := Multi)
      else if p.kind.Object? then q.(kv := KV.Added(q.kv, p.kv))
      else if Simple(p.kind) then q.(val := Some(AddItems(q.val.value, Items(p))))
      else q
  }

  // StructuredPile.Merge
  function Merged(pile: Pile, other: Pile): (r: Pile)
    requires PileOk(pile) && PileOk(other)
    ensures PileOk(r)
  {
    var q :=
      if !pile.kind.Empty? then pile
      else if Simple(other.kind) then pile.(kind := other.kind, val := Some(SV.EMPTY_PILE))
      else pile.(kind := other.kind);
    if q.kind != other.kind then q.(kind := Multi)
    else if q.kind.Object? then q.(kv := KV.Merged(q.kv, other.kv))
    else if Simple(q.kind) then q.(val := Some(SV.Merged(q.val.value, other.val.value)))
    else q
  }

  // ---------- Configs ----------

  // StructuredConfig.Learn, visiting object keys in the given order
  function Learned(c: Config, pile: Pile, order: seq<string>): (r: Config)
    requires ConfigOk(c) && PileOk(pile) && (forall k | k in order :: k in pile.kv)
    ensures ConfigOk(r)
  {
    var d :=
      if !c.kind.Empty? then c
      else if pile.kind.Object? then c.(kind := Object, val := None)
      else if Simple(pile.kind) then c.(kind := pile.kind, val := Some(SV.EMPTY_CONFIG))
      else c.(kind := pile.kind);
    if d.kind != pile.kind then d.(kind := Multi)
    else if d.kind.Object? then d.(kv := KV.LearnOver(d.kv, pile.kv, order))
    else if Simple(d.kind) then d.(val := Some(SV.Learned(d.val.value, pile.val.value)))
    else d
  }

  // StructuredConfig.Decide returns nil.
  predicate Accepts(c: Config, p: Profile)
    requires ConfigOk(c) && ProfileOk(p)
  {
    if c.kind != p.kind then c.kind.Multi?
    else if c.kind.Object? then KV.Accepts(c.kv, p.kv)
    else if Simple(c.kind) then forall v | v in Items(p) :: SV.Accepts(c.val.value, v)
    else true
  }

  // ---------- Soundness ----------

  datatype History =
    | Fresh
    | Add(before: History, profile: Profile)
    | Merge(before: History, other: History)

  function Samples(h: History): set<Profile> {
    match h
    case Fresh => {}
    case Add(before, profile) => Samples(before) + {profile}
    case Merge(before, other) => Samples(before) + Samples(other)
  }

  // All profiles are as Profile() makes them from a JSON value other than null.
  predicate HistoryOk(h: History) {
    forall p | p in Samples(h) :: ProfileOk(p) && !p.kind.Empty?
  }

  function PileOf(h: History): (pile: Pile)
    requires HistoryOk(h)
    ensures PileOk(pile)
  {
    match h
    case Fresh => EMPTY_PILE
    case Add(before, profile) =>
      assert profile in Samples(h);
      Added(PileOf(before), profile)
    case Merge(before, other) => Merged(PileOf(before), PileOf(other))
  }

  // The pile has given up on kinds or holds all values of the profile.
  predicate Records(pile: Pile, p: Profile)
    requires PileOk(pile) && ProfileOk(p)
  {
    || pile.kind.Multi?
    || (&& pile.kind == p.kind
        && (p.kind.Object? ==> KV.Records(pile.kv, p.kv))
        && (Simple(p.kind) ==> forall v | v in Items(p) :: SV.Records(pile.val.value, v)))
  }

  lemma {:induction false} ItemsRecorded(pile: SV.Pile, items: seq<Scanner.Profile>)
    ensures forall v | v in items :: SV.Records(AddItems(pile, items), v)
    ensures forall v | SV.Records(pile, v) :: SV.Records(AddItems(pile, items), v)
  {
    hide SV.Records, SV.Added;
    if items != [] {
      var n := |items| - 1;
      ItemsRecorded(pile, items[..n]);
      SV.AddedRecords(AddItems(pile, items[..n]), items[n]);
      assert items == items[..n] + [items[n]];
    }
  }

  lemma AddedRecords(pile: Pile, p: Profile)
    requires PileOk(pile) && ProfileOk(p) && !p.kind.Empty?
    ensures Records(Added(pile, p), p)
    ensures forall q | ProfileOk(q) && !q.kind.Empty? && Records(pile, q) :: Records(Added(pile, p), q)
  {
    hide SV.Records, SV.Added, KV.Records, KV.Added;
    if p.kind.Object? { KV.AddedRecords(pile.kv, p.kv); }
    if Simple(p.kind) {
      ItemsRecorded(if pile.kind.Empty? then SV.EMPTY_PILE else if Simple(pile.kind) then pile.val.value
                    else SV.EMPTY_PILE, Items(p));
    }
  }

  lemma MergedRecords(pile: Pile, other: Pile)
    requires PileOk(pile) && PileOk(other)
    ensures forall q | ProfileOk(q) && !q.kind.Empty? && (Records(pile, q) || Records(other, q)) ::
      Records(Merged(pile, other), q)
  {
    hide SV.Records, SV.Merged, KV.Records, KV.Merged;
    KV.MergedRecords(pile.kv, other.kv);
    if Simple(other.kind) {
      SV.MergedRecords(if Simple(pile.kind) then pile.val.value else SV.EMPTY_PILE, other.val.value);
    }
  }

  lemma {:induction false} HistoryRecords(h: History, p: Profile)
    requires HistoryOk(h) && p in Samples(h)
    ensures Records(PileOf(h), p)
  {
    hide Records, Added, Merged;
    match h
    case Fresh =>
    case Add(before, profile) =>
      assert profile in Samples(h);
      AddedRecords(PileOf(before), profile);
      if p in Samples(before) { HistoryRecords(before, p); }
    case Merge(before, other) =>
      MergedRecords(PileOf(before), PileOf(other));
      if p in Samples(before) { HistoryRecords(before, p); } else { HistoryRecords(other, p); }
  }

  lemma LearnedAccepts(c: Config, pile: Pile, order: seq<string>, p: Profile)
    requires ConfigOk(c) && PileOk(pile) && ProfileOk(p) && KV.IsOrder(order, pile.kv.Keys)
    requires Records(pile, p) && KV.Covered(c.kv, pile.kv, p.kv)
    ensures Accepts(Learned(c, pile, order), p)
  {
    hide SV.Records, SV.Learned, SV.Accepts, KV.Records, KV.Accepts, KV.LearnOver, KV.Covered;
    if pile.kind.Object? && p.kind.Object? { KV.LearnSoundInAnyOrder(c.kv, pile.kv, order, p.kv); }
    if Simple(pile.kind) && pile.kind == p.kind {
      var val := if Simple(c.kind) then c.val.value else SV.EMPTY_CONFIG;
      forall v | v in Items(p) ensures SV.Accepts(SV.Learned(val, pile.val.value), v) {
        SV.LearnedAccepts(val, pile.val.value, v);
      }
    }
  }

  // For any mix of Add and Merge, learning the pile makes the config approve every sample; one with
  // the empty key when that key is covered.
  lemma LearnedSamplesAccepted(c: Config, h: History, order: seq<string>)
    requires ConfigOk(c) && HistoryOk(h) && KV.IsOrder(order, PileOf(h).kv.Keys)
    ensures forall p | p in Samples(h) && KV.Covered(c.kv, PileOf(h).kv, p.kv) ::
      ProfileOk(p) && Accepts(Learned(c, PileOf(h), order), p)
  {
    forall p | p in Samples(h) && KV.Covered(c.kv, PileOf(h).kv, p.kv)
      ensures Accepts(Learned(c, PileOf(h), order), p)
    {
      HistoryRecords(h, p);
      LearnedAccepts(c, PileOf(h), order, p);
    }
  }

  // "multi" is absorbing, and a config of that kind approves everything.
  lemma MultiAbsorbs(pile: Pile, other: Pile, p: Profile, c: Config, order: seq<string>)
    requires PileOk(pile) && PileOk(other) && ProfileOk(p) && ConfigOk(c)
    requires forall k | k in order :: k in pile.kv
    ensures pile.kind.Multi? ==> Added(pile, p).kind.Multi? && Merged(pile, other).kind.Multi?
    ensures other.kind.Multi? ==> Merged(pile, other).kind.Multi?
    ensures pile.kind.Multi? || c.kind.Multi? ==> Learned(c, pile, order).kind.Multi?
    ensures c.kind.Multi? ==> Accepts(c, p)
  {
  }

  // Kinds meet in "multi" exactly when they differ; only a left-hand empty kind is neutral.
  lemma MergedKind(pile: Pile, other: Pile)
    requires PileOk(pile) && PileOk(other)
    ensures Merged(pile, other).kind ==
      if pile.kind.Empty? || pile.kind == other.kind then other.kind else Multi
  {
  }

  // So a pile that saw only numbers turns into "multi" when an empty pile is merged into it,
  // while the same merge the other way round keeps the kind.
  lemma EmptyMergeIsNotNeutral()
    ensures var n := Pile(Number, Some(SV.EMPTY_PILE), map[]);
      Merged(n, EMPTY_PILE).kind == Multi && Merged(EMPTY_PILE, n).kind == Number
  {
  }
}
