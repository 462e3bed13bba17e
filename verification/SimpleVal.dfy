// simpleVal.go: piles and configs of simple values. Configs are ordered by how much they
// approve; learning moves up in that order by exactly as much as the samples demand.
module SimpleVal {
  import opened Bits
  import opened Scanner
  import FS = FlagSlice
  import Limit

  datatype Pile = Pile(
    digits: Limit.LimitPile,
    letters: Limit.LimitPile,
    spaces: Limit.LimitPile,
    specialChars: Limit.LimitPile,
    nonReadables: Limit.LimitPile,
    unicodes: Limit.LimitPile,
    sequences: Limit.LimitPile,
    flags: Word,
    unicodeFlags: FS.Flags)

  datatype Config = Config(
    digits: Byte,
    letters: Byte,
    spaces: Byte,
    specialChars: Byte,
    nonReadables: Byte,
    unicodes: Byte,
    sequences: Byte,
    flags: Word,
    unicodeFlags: FS.Flags)

  const EMPTY_PILE := Pile([], [], [], [], [], [], [], 0, [])
  const EMPTY_CONFIG := Config(0, 0, 0, 0, 0, 0, 0, 0, [])

  // SimpleValPile.Add
  function Added(pile: Pile, p: Profile): Pile {
    Pile(
      pile.digits + [p.digits],
      pile.letters + [p.letters],
      pile.spaces + [p.spaces],
      pile.specialChars + [p.specialChars],
      pile.nonReadables + [p.nonReadables],
      pile.unicodes + [p.unicodes],
      pile.sequences + [p.sequences],
      FS.OrWords(pile.flags, p.flags),
      FS.Merged(pile.unicodeFlags, p.unicodeFlags))
  }

  // SimpleValPile.Merge
  function Merged(pile: Pile, other: Pile): Pile {
    Pile(
      pile.digits + other.digits,
      pile.letters + other.letters,
      pile.spaces + other.spaces,
      pile.specialChars + other.specialChars,
      pile.nonReadables + other.nonReadables,
      pile.unicodes + other.unicodes,
      pile.sequences + other.sequences,
      FS.OrWords(pile.flags, other.flags),
      FS.Merged(pile.unicodeFlags, other.unicodeFlags))
  }

  // SimpleValConfig.Learn
  function Learned(c: Config, pile: Pile): Config {
    Config(
      Limit.Learned(c.digits, pile.digits),
      Limit.Learned(c.letters, pile.letters),
      Limit.Learned(c.spaces, pile.spaces),
      Limit.Learned(c.specialChars, pile.specialChars),
      Limit.Learned(c.nonReadables, pile.nonReadables),
      Limit.Learned(c.unicodes, pile.unicodes),
      Limit.Learned(c.sequences, pile.sequences),
      FS.OrWords(c.flags, pile.flags),
      FS.Merged(c.unicodeFlags, pile.unicodeFlags))
  }

  // SimpleValConfig.Fuse
  function Fused(c: Config, d: Config): Config {
    Config(
      Limit.Fused(c.digits, d.digits),
      Limit.Fused(c.letters, d.letters),
      Limit.Fused(c.spaces, d.spaces),
      Limit.Fused(c.specialChars, d.specialChars),
      Limit.Fused(c.nonReadables, d.nonReadables),
      Limit.Fused(c.unicodes, d.unicodes),
      Limit.Fused(c.sequences, d.sequences),
      FS.OrWords(c.flags, d.flags),
      FS.Merged(c.unicodeFlags, d.unicodeFlags))
  }

  // SimpleValConfig.Decide returns nil.
  predicate Accepts(c: Config, p: Profile) {
    && Limit.Allows(c.letters, p.letters)
    && Limit.Allows(c.digits, p.digits)
    && Limit.Allows(c.spaces, p.spaces)
    && Limit.Allows(c.specialChars, p.specialChars)
    && Limit.Allows(c.nonReadables, p.nonReadables)
    && Limit.Allows(c.unicodes, p.unicodes)
    && Limit.Allows(c.sequences, p.sequences)
    && Subset(p.flags, c.flags)
    && FS.Within(p.unicodeFlags, c.unicodeFlags)
  }

  // c approves no more than d does.
  predicate Leq(c: Config, d: Config) {
    && c.digits <= d.digits
    && c.letters <= d.letters
    && c.spaces <= d.spaces
    && c.specialChars <= d.specialChars
    && c.nonReadables <= d.nonReadables
    && c.unicodes <= d.unicodes
    && c.sequences <= d.sequences
    && Subset(c.flags, d.flags)
    && FS.Within(c.unicodeFlags, d.unicodeFlags)
  }

  // How a pile came to be: profiles added one by one and whole piles merged in.
  datatype History =
    | Fresh
    | Add(before: History, profile: Profile)
    | Merge(before: History, other: History)

  function PileOf(h: History): Pile {
    match h
    case Fresh => EMPTY_PILE
    case Add(before, profile) => Added(PileOf(before), profile)
    case Merge(before, other) => Merged(PileOf(before), PileOf(other))
  }

  // The profiles that went into the pile.
  function Samples(h: History): set<Profile> {
    match h
    case Fresh => {}
    case Add(before, profile) => Samples(before) + {profile}
    case Merge(before, other) => Samples(before) + Samples(other)
  }

  // ---------- The order and what configs approve ----------

  lemma LeqRefl(c: Config)
    ensures Leq(c, c)
  {
    SubsetOr(c.flags, c.flags);
    FS.OrSame(c.flags);
    FS.WithinRefl(c.unicodeFlags);
  }

  lemma LeqTrans(a: Config, b: Config, c: Config)
    requires Leq(a, b) && Leq(b, c)
    ensures Leq(a, c)
  {
    SubsetTrans(a.flags, b.flags, c.flags);
    FS.WithinTrans(a.unicodeFlags, b.unicodeFlags, c.unicodeFlags);
  }

  // The config that approves exactly what is below this profile.
  function Tightest(p: Profile): Config {
    Config(p.digits, p.letters, p.spaces, p.specialChars, p.nonReadables, p.unicodes, p.sequences,
           p.flags, p.unicodeFlags)
  }

  lemma AcceptsIsLeq(c: Config, p: Profile)
    ensures Accepts(c, p) <==> Leq(Tightest(p), c)
  {
  }

  // The order is exactly inclusion of what is approved.
  lemma LeqIsInclusion(c: Config, d: Config)
    ensures Leq(c, d) <==> forall p :: Accepts(c, p) ==> Accepts(d, p)
  {
    var top := Profile(c.digits, c.letters, c.spaces, c.specialChars, c.nonReadables, c.unicodes,
                       c.sequences, c.flags, c.unicodeFlags);
    assert Tightest(top) == c;
    LeqRefl(c);
    AcceptsIsLeq(c, top);
    AcceptsIsLeq(d, top);
    if Leq(c, d) {
      forall p | Accepts(c, p) ensures Accepts(d, p) {
        AcceptsIsLeq(c, p);
        AcceptsIsLeq(d, p);
        LeqTrans(Tightest(p), c, d);
      }
    }
  }

  // ---------- Fuse is the join ----------

  lemma FusedIsJoin(c: Config, d: Config)
    ensures Leq(c, Fused(c, d)) && Leq(d, Fused(c, d))
    ensures forall e :: Leq(c, e) && Leq(d, e) ==> Leq(Fused(c, d), e)
  {
    SubsetOr(c.flags, d.flags);
    FS.MergedIsJoin(c.unicodeFlags, d.unicodeFlags);
    forall e | Leq(c, e) && Leq(d, e) ensures Leq(Fused(c, d), e) {
      OrLeast(c.flags, d.flags, e.flags);
    }
  }

  // ---------- Learning is the least move that approves every sample ----------

  // The pile records this profile: each of its values is in the pile.
  predicate Records(pile: Pile, p: Profile) {
    && p.digits in pile.digits
    && p.letters in pile.letters
    && p.spaces in pile.spaces
    && p.specialChars in pile.specialChars
    && p.nonReadables in pile.nonReadables
    && p.unicodes in pile.unicodes
    && p.sequences in pile.sequences
    && Subset(p.flags, pile.flags)
    && FS.Within(p.unicodeFlags, pile.unicodeFlags)
  }

  lemma AddedRecords(pile: Pile, p: Profile)
    ensures Records(Added(pile, p), p)
    ensures forall q :: Records(pile, q) ==> Records(Added(pile, p), q)
  {
    SubsetOr(pile.flags, p.flags);
    FS.MergedIsJoin(pile.unicodeFlags, p.unicodeFlags);
    forall q | Records(pile, q) ensures Records(Added(pile, p), q) {
      SubsetTrans(q.flags, pile.flags, Added(pile, p).flags);
      FS.WithinTrans(q.unicodeFlags, pile.unicodeFlags, Added(pile, p).unicodeFlags);
    }
  }

  lemma MergedRecords(pile: Pile, other: Pile)
    ensures forall q :: Records(pile, q) || Records(other, q) ==> Records(Merged(pile, other), q)
  {
    var m := Merged(pile, other);
    SubsetOr(pile.flags, other.flags);
    FS.MergedIsJoin(pile.unicodeFlags, other.unicodeFlags);
    forall q | Records(pile, q) || Records(other, q) ensures Records(m, q) {
      var x := if Records(pile, q) then pile else other;
      SubsetTrans(q.flags, x.flags, m.flags);
      FS.WithinTrans(q.unicodeFlags, x.unicodeFlags, m.unicodeFlags);
    }
  }

  lemma {:induction false} HistoryRecords(h: History, p: Profile)
    requires p in Samples(h)
    ensures Records(PileOf(h), p)
  {
    match h
    case Fresh =>
    case Add(before, profile) =>
      AddedRecords(PileOf(before), profile);
      if p in Samples(before) { HistoryRecords(before, p); }
    case Merge(before, other) =>
      MergedRecords(PileOf(before), PileOf(other));
      if p in Samples(before) { HistoryRecords(before, p); } else { HistoryRecords(other, p); }
  }

  lemma LearnedGrows(c: Config, pile: Pile)
    ensures Leq(c, Learned(c, pile))
  {
    LearnedLimits(c, pile);
    SubsetOr(c.flags, pile.flags);
    FS.MergedIsJoin(c.unicodeFlags, pile.unicodeFlags);
  }

  lemma LearnedLimits(c: Config, pile: Pile)
    ensures var l := Learned(c, pile);
      && c.digits <= l.digits && (forall v | v in pile.digits :: v <= l.digits)
      && c.letters <= l.letters && (forall v | v in pile.letters :: v <= l.letters)
      && c.spaces <= l.spaces && (forall v | v in pile.spaces :: v <= l.spaces)
      && c.specialChars <= l.specialChars && (forall v | v in pile.specialChars :: v <= l.specialChars)
      && c.nonReadables <= l.nonReadables && (forall v | v in pile.nonReadables :: v <= l.nonReadables)
      && c.unicodes <= l.unicodes && (forall v | v in pile.unicodes :: v <= l.unicodes)
      && c.sequences <= l.sequences && (forall v | v in pile.sequences :: v <= l.sequences)
  {
    Limit.LearnedIsMax(c.digits, pile.digits);
    Limit.LearnedIsMax(c.letters, pile.letters);
    Limit.LearnedIsMax(c.spaces, pile.spaces);
    Limit.LearnedIsMax(c.specialChars, pile.specialChars);
    Limit.LearnedIsMax(c.nonReadables, pile.nonReadables);
    Limit.LearnedIsMax(c.unicodes, pile.unicodes);
    Limit.LearnedIsMax(c.sequences, pile.sequences);
  }

  lemma LearnedAccepts(c: Config, pile: Pile, p: Profile)
    requires Records(pile, p)
    ensures Accepts(Learned(c, pile), p)
  {
    LearnedLimits(c, pile);
    SubsetOr(c.flags, pile.flags);
    SubsetTrans(p.flags, pile.flags, Learned(c, pile).flags);
    FS.MergedIsJoin(c.unicodeFlags, pile.unicodeFlags);
    FS.WithinTrans(p.unicodeFlags, pile.unicodeFlags, Learned(c, pile).unicodeFlags);
  }

  // Every value in the pile stems from a config e.
  predicate PileBelow(pile: Pile, e: Config) {
    && (forall v | v in pile.digits :: v <= e.digits)
    && (forall v | v in pile.letters :: v <= e.letters)
    && (forall v | v in pile.spaces :: v <= e.spaces)
    && (forall v | v in pile.specialChars :: v <= e.specialChars)
    && (forall v | v in pile.nonReadables :: v <= e.nonReadables)
    && (forall v | v in pile.unicodes :: v <= e.unicodes)
    && (forall v | v in pile.sequences :: v <= e.sequences)
    && Subset(pile.flags, e.flags)
    && FS.Within(pile.unicodeFlags, e.unicodeFlags)
  }

  lemma {:induction false} HistoryBelow(h: History, e: Config)
    requires forall p | p in Samples(h) :: Accepts(e, p)
    ensures PileBelow(PileOf(h), e)
  {
    match h
    case Fresh =>
    case Add(before, profile) =>
      HistoryBelow(before, e);
      assert profile in Samples(h);
      OrLeast(PileOf(before).flags, profile.flags, e.flags);
      FS.MergedIsJoin(PileOf(before).unicodeFlags, profile.unicodeFlags);
    case Merge(before, other) =>
      HistoryBelow(before, e);
      HistoryBelow(other, e);
      OrLeast(PileOf(before).flags, PileOf(other).flags, e.flags);
      FS.MergedIsJoin(PileOf(before).unicodeFlags, PileOf(other).unicodeFlags);
  }

  lemma LearnedBelow(c: Config, pile: Pile, e: Config)
    requires Leq(c, e) && PileBelow(pile, e)
    ensures Leq(Learned(c, pile), e)
  {
    Limit.LearnedIsMax(c.digits, pile.digits);
    Limit.LearnedIsMax(c.letters, pile.letters);
    Limit.LearnedIsMax(c.spaces, pile.spaces);
    Limit.LearnedIsMax(c.specialChars, pile.specialChars);
    Limit.LearnedIsMax(c.nonReadables, pile.nonReadables);
    Limit.LearnedIsMax(c.unicodes, pile.unicodes);
    Limit.LearnedIsMax(c.sequences, pile.sequences);
    OrLeast(c.flags, pile.flags, e.flags);
    FS.MergedIsJoin(c.unicodeFlags, pile.unicodeFlags);
  }

  // Learn yields the least config above the old one that approves every sample of the pile.
  lemma LearnIsLeast(c: Config, h: History)
    ensures var l := Learned(c, PileOf(h));
      && Leq(c, l)
      && (forall p | p in Samples(h) :: Accepts(l, p))
      && (forall e | Leq(c, e) && (forall p | p in Samples(h) :: Accepts(e, p)) :: Leq(l, e))
  {
    LearnedGrows(c, PileOf(h));
    forall p | p in Samples(h) ensures Accepts(Learned(c, PileOf(h)), p) {
      HistoryRecords(h, p);
      LearnedAccepts(c, PileOf(h), p);
    }
    forall e | Leq(c, e) && (forall p | p in Samples(h) :: Accepts(e, p))
      ensures Leq(Learned(c, PileOf(h)), e)
    {
      HistoryBelow(h, e);
      LearnedBelow(c, PileOf(h), e);
    }
  }

  // Learning a merged pile equals learning the two piles one after the other, in either order.
  lemma LearnMerged(c: Config, p: Pile, q: Pile)
    ensures Learned(c, Merged(p, q)) == Learned(Learned(c, p), q)
    ensures Learned(c, Merged(p, q)) == Learned(c, Merged(q, p))
  {
    Limit.LearnedAppend(c.digits, p.digits, q.digits);
    Limit.LearnedAppend(c.letters, p.letters, q.letters);
    Limit.LearnedAppend(c.spaces, p.spaces, q.spaces);
    Limit.LearnedAppend(c.specialChars, p.specialChars, q.specialChars);
    Limit.LearnedAppend(c.nonReadables, p.nonReadables, q.nonReadables);
    Limit.LearnedAppend(c.unicodes, p.unicodes, q.unicodes);
    Limit.LearnedAppend(c.sequences, p.sequences, q.sequences);
    OrAssoc(c.flags, p.flags, q.flags);
    OrComm(p.flags, q.flags);
    FS.MergedAssoc(c.unicodeFlags, p.unicodeFlags, q.unicodeFlags);
    FS.MergedComm(p.unicodeFlags, q.unicodeFlags);
  }

  // ---------- Score ----------

  // The score over unbounded integers.
  function ExactScore(c: Config): nat {
    4 * (c.specialChars + c.nonReadables + c.sequences + Ones(c.flags) + FS.Count(c.unicodeFlags))
    + c.digits + c.letters + c.spaces + c.unicodes
  }

  // The score as a uint32.
  function Score(c: Config): Word {
    ExactScore(c) % UINT32_LIMIT
  }

  // The scanner never produces more than 272 words of unicode flags.
  lemma {:induction false} ScannedBlocks(str: string)
    ensures |ProfileOf(str).unicodeFlags| <= MAX_WORDS
  {
    if str != [] { ScannedBlocks(str[..|str| - 1]); }
  }

  lemma ScoreExact(c: Config)
    requires |c.unicodeFlags| <= 0x10_0000
    ensures Score(c) == ExactScore(c)
  {
    Pow2Word();
    OnesBelow(c.flags, 32);
    CountBound(c.unicodeFlags);
  }

  lemma {:induction false} CountBound(f: FS.Flags)
    ensures FS.Count(f) <= 32 * |f|
  {
    if f != [] {
      CountBound(f[..|f| - 1]);
      Pow2Word();
      OnesBelow(f[|f| - 1], 32);
    }
  }

  // More permissive configs never score lower, as long as the 32-bit sum cannot wrap.
  lemma ScoreMonotone(c: Config, d: Config)
    requires Leq(c, d)
    ensures ExactScore(c) <= ExactScore(d)
    ensures |c.unicodeFlags| <= 0x10_0000 && |d.unicodeFlags| <= 0x10_0000 ==> Score(c) <= Score(d)
  {
    OnesMonotone(c.flags, d.flags);
    FS.CountMonotone(c.unicodeFlags, d.unicodeFlags);
    if |c.unicodeFlags| <= 0x10_0000 && |d.unicodeFlags| <= 0x10_0000 {
      ScoreExact(c);
      ScoreExact(d);
    }
  }

  // ---------- Scores of what is learned from strings ----------

  // The words that hold every block of 128 code points.
  const MAX_WORDS := 272

  ghost predicate FromStrings(h: History) {
    forall p | p in Samples(h) :: exists str: string :: p == Scanner.ProfileOf(str)
  }

  // How a config came about.
  datatype Origin = New | Learn(before: Origin, pile: History) | Fuse(before: Origin, other: Origin)

  function ConfigOf(o: Origin): Config {
    match o
    case New => EMPTY_CONFIG
    case Learn(before, h) => Learned(ConfigOf(before), PileOf(h))
    case Fuse(before, other) => Fused(ConfigOf(before), ConfigOf(other))
  }

  ghost predicate LearnedFromStrings(o: Origin) {
    match o
    case New => true
    case Learn(before, h) => LearnedFromStrings(before) && FromStrings(h)
    case Fuse(before, other) => LearnedFromStrings(before) && LearnedFromStrings(other)
  }

  lemma {:induction false} PileWords(h: History)
    requires FromStrings(h)
    ensures |PileOf(h).unicodeFlags| <= MAX_WORDS
  {
    match h
    case Fresh =>
    case Add(before, p) =>
      assert forall q | q in Samples(before) :: q in Samples(h);
      PileWords(before);
      assert p in Samples(h);
      var str: string :| p == Scanner.ProfileOf(str);
      ScannedBlocks(str);
    case Merge(before, other) =>
      assert forall q | q in Samples(before) || q in Samples(other) :: q in Samples(h);
      PileWords(before);
      PileWords(other);
  }

  lemma {:induction false} ConfigWords(o: Origin)
    requires LearnedFromStrings(o)
    ensures |ConfigOf(o).unicodeFlags| <= MAX_WORDS
  {
    match o
    case New =>
    case Learn(before, h) =>
      ConfigWords(before);
      PileWords(h);
    case Fuse(before, other) =>
      ConfigWords(before);
      ConfigWords(other);
  }

  // Among configs learned from strings by any mix of Learn and Fuse the 32-bit score is exact, and
  // a more permissive config never scores lower.
  lemma LearnedScoreMonotone(o: Origin, q: Origin)
    requires LearnedFromStrings(o) && LearnedFromStrings(q) && Leq(ConfigOf(o), ConfigOf(q))
    ensures Score(ConfigOf(o)) == ExactScore(ConfigOf(o)) <= Score(ConfigOf(q))
  {
    ConfigWords(o);
    ConfigWords(q);
    ScoreExact(ConfigOf(o));
    ScoreMonotone(ConfigOf(o), ConfigOf(q));
  }

  // ---------- The sum as it is computed ----------

  // uint32 addition
  function Add32(a: nat, b: nat): Word {
    (a + b) % UINT32_LIMIT
  }

  function Sum32(a: nat, b: nat, c: nat, d: nat, e: nat): Word {
    Add32(Add32(Add32(Add32(a, b), c), d), e)
  }

  lemma Sum32Wraps(a: nat, b: nat, c: nat, d: nat, e: nat)
    ensures Sum32(a, b, c, d, e) == (a + b + c + d + e) % UINT32_LIMIT
  {
    Wraps(a + b, c);
    Wraps(a + b + c, d);
    Wraps(a + b + c + d, e);
  }

  lemma Wraps(a: nat, b: nat)
    ensures (a % UINT32_LIMIT + b) % UINT32_LIMIT == (a + b) % UINT32_LIMIT
  {
  }

  lemma TimesFour(a: nat)
    ensures (a % UINT32_LIMIT * 4) % UINT32_LIMIT == (a * 4) % UINT32_LIMIT
  {
  }

  // Wrapping at every step of the sum is wrapping once at the end.
  lemma ScoreWraps(c: Config)
    ensures var count := FS.Count(c.unicodeFlags) % UINT32_LIMIT;
      var upper := Sum32(c.specialChars, c.nonReadables, c.sequences, Ones(c.flags), count);
      Sum32((upper * 4) % UINT32_LIMIT, c.digits, c.letters, c.spaces, c.unicodes) == Score(c)
  {
    hide Sum32, Add32, Ones, FS.Count;
    var exact := c.specialChars + c.nonReadables + c.sequences + Ones(c.flags) + FS.Count(c.unicodeFlags);
    var count := FS.Count(c.unicodeFlags) % UINT32_LIMIT;
    Sum32Wraps(c.specialChars, c.nonReadables, c.sequences, Ones(c.flags), count);
    Wraps(FS.Count(c.unicodeFlags), c.specialChars + c.nonReadables + c.sequences + Ones(c.flags));
    var upper := exact % UINT32_LIMIT;
    TimesFour(exact);
    Sum32Wraps((upper * 4) % UINT32_LIMIT, c.digits, c.letters, c.spaces, c.unicodes);
    Wraps(exact * 4, c.digits + c.letters + c.spaces + c.unicodes);
  }

  // ---------- The object ----------

  // SimpleValConfig: its fields are overwritten by Learn and Fuse; score is a cache.
  class SimpleValConfig {
    var digits: Byte
    var letters: Byte
    var spaces: Byte
    var specialChars: Byte
    var nonReadables: Byte
    var unicodes: Byte
    var sequences: Byte
    var flags: Word
    var unicodeFlags: FS.Flags
    var score: Word

    function View(): Config
      reads this
    {
      Config(digits, letters, spaces, specialChars, nonReadables, unicodes, sequences, flags, unicodeFlags)
    }

    constructor ()
      ensures View() == EMPTY_CONFIG && score == 0
    {
      digits, letters, spaces, specialChars, nonReadables := 0, 0, 0, 0, 0;
      unicodes, sequences, flags, unicodeFlags, score := 0, 0, 0, [], 0;
    }

    method Learn(pile: Pile)
      modifies this
      ensures View() == Learned(old(View()), pile) && score == old(score)
    {
      var d := Limit.Learn(digits, pile.digits);
      var l := Limit.Learn(letters, pile.letters);
      var sp := Limit.Learn(spaces, pile.spaces);
      var sc := Limit.Learn(specialChars, pile.specialChars);
      var nr := Limit.Learn(nonReadables, pile.nonReadables);
      var u := Limit.Learn(unicodes, pile.unicodes);
      var sq := Limit.Learn(sequences, pile.sequences);
      var uf := FS.MergeFlagSlices(unicodeFlags, pile.unicodeFlags);
      digits, letters, spaces, specialChars, nonReadables := d, l, sp, sc, nr;
      unicodes, sequences, flags, unicodeFlags := u, sq, FS.OrWords(flags, pile.flags), uf;
    }

    method Fuse(other: SimpleValConfig)
      modifies this
      ensures View() == Fused(old(View()), old(other.View())) && score == old(score)
    {
      var uf := FS.MergeFlagSlices(unicodeFlags, other.unicodeFlags);
      digits, letters, spaces, specialChars, nonReadables, unicodes, sequences, flags, unicodeFlags :=
        Limit.Fused(digits, other.digits),
        Limit.Fused(letters, other.letters),
        Limit.Fused(spaces, other.spaces),
        Limit.Fused(specialChars, other.specialChars),
        Limit.Fused(nonReadables, other.nonReadables),
        Limit.Fused(unicodes, other.unicodes),
        Limit.Fused(sequences, other.sequences),
        FS.OrWords(flags, other.flags),
        uf;
    }

    // The result is the number of rules broken; zero stands for a nil decision.
    method Decide(p: Profile) returns (result: nat)
      ensures result == 0 <==> Accepts(View(), p)
    {
      result := 0;
      if p.letters > letters { result := result + 1; }
      if p.digits > digits { result := result + 1; }
      if p.spaces > spaces { result := result + 1; }
      if p.specialChars > specialChars { result := result + 1; }
      if p.nonReadables > nonReadables { result := result + 1; }
      if p.unicodes > unicodes { result := result + 1; }
      if p.sequences > sequences { result := result + 1; }
      if AndNot(p.flags, flags) != 0 { result := result + 1; }
      var child := FS.Decide(unicodeFlags, p.unicodeFlags);
      result := result + child;
    }

    // A non-zero score is kept and returned even after the config has changed.
    method GetScore() returns (r: Word)
      modifies this`score
      ensures r == score == if old(score) == 0 then Score(View()) else old(score)
    {
      if score == 0 {
        var flagScore := Kernighan(flags);
        var unicodeScore := FS.Score(unicodeFlags);
        var s := Sum32(specialChars, nonReadables, sequences, flagScore, unicodeScore);
        s := Sum32((s * 4) % UINT32_LIMIT, digits, letters, spaces, unicodes);
        ScoreWraps(View());
        score := s;
      }
      r := score;
    }
  }
}
