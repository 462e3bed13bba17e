// flagSlice.go and asciiFlags.go: sets of flags kept in uint32 words.
module FlagSlice {
  import opened Bits

  type Flags = seq<Word>

  // Word i of a flag slice; slices are as if padded with zero words.
  function At(f: Flags, i: nat): Word {
    if i < |f| then f[i] else 0
  }

  function OrWords(a: Word, b: Word): Word {
    OrWord(a, b);
    Or(a, b)
  }

  function Longer(a: nat, b: nat): nat {
    if a < b then b else a
  }

  function Merged(base: Flags, extra: Flags): (r: Flags)
    ensures |r| == Longer(|base|, |extra|)
  {
    seq(Longer(|base|, |extra|), i requires i >= 0 => OrWords(At(base, i), At(extra, i)))
  }

  // mergeFlagSlices
  method MergeFlagSlices(base0: Flags, extra: Flags) returns (base: Flags)
    ensures base == Merged(base0, extra)
  {
    base := base0;
    var missing := |extra| - |base|;
    if missing > 0 {
      base := base + seq(missing, _ => 0);
    }
    for i := 0 to |extra|
      invariant |base| == Longer(|base0|, |extra|)
      invariant forall j | 0 <= j < i :: base[j] == OrWords(At(base0, j), At(extra, j))
      invariant forall j | i <= j < |base| :: base[j] == At(base0, j)
    {
      base := base[i := OrWords(base[i], extra[i])];
    }
    forall j | |extra| <= j < |base| ensures base[j] == OrWords(At(base0, j), At(extra, j)) {
      OrComm(base[j], 0);
    }
  }

  // FlagSliceConfig.Decide approves the profile: no flag outside the config.
  predicate Within(profile: Flags, config: Flags) {
    forall i: nat | i < |profile| :: Subset(profile[i], At(config, i))
  }

  // FlagSliceConfig.Decide: the number of offending words.
  method Decide(config: Flags, profile: Flags) returns (result: nat)
    ensures result == 0 <==> Within(profile, config)
  {
    result := 0;
    for i := 0 to |profile|
      invariant result == 0 <==> forall j: nat | j < i :: Subset(profile[j], At(config, j))
    {
      var v := profile[i];
      if v == 0 { continue; }
      if i < |config| && AndNot(v, config[i]) == 0 { continue; }
      if i >= |config| { AndNotZero(v); }
      result := result + 1;
    }
  }

  lemma {:induction false} AndNotZero(a: nat)
    ensures AndNot(a, 0) == a
  {
    if a != 0 { AndNotZero(a / 2); }
  }

  // Bit b of word i is set.
  predicate IsSet(f: Flags, i: nat, b: nat) {
    i < |f| && Bit(f[i], b)
  }

  // Every flag of the profile is a flag of the config.
  lemma WithinIsBitwise(p: Flags, c: Flags)
    ensures Within(p, c) <==> forall i: nat, b: nat :: IsSet(p, i, b) ==> IsSet(c, i, b)
  {
    if Within(p, c) {
      forall i: nat, b: nat | IsSet(p, i, b) ensures IsSet(c, i, b) {
        assert Subset(p[i], At(c, i));
        WordIsBitwise(p, c, i);
      }
    }
    if forall i: nat, b: nat :: IsSet(p, i, b) ==> IsSet(c, i, b) {
      forall i: nat | i < |p| ensures Subset(p[i], At(c, i)) {
        WordIsBitwise(p, c, i);
      }
    }
  }

  lemma WordIsBitwise(p: Flags, c: Flags, i: nat)
    requires i < |p|
    ensures Subset(p[i], At(c, i)) <==> forall b: nat :: IsSet(p, i, b) ==> IsSet(c, i, b)
  {
    hide Bit, Subset;
    SubsetIsBitwise(p[i], At(c, i));
    if Subset(p[i], At(c, i)) {
      forall b: nat | IsSet(p, i, b) ensures IsSet(c, i, b) {
        assert Bit(p[i], b) && Bit(At(c, i), b);
        BitZero(b);
      }
    }
    if forall b: nat :: IsSet(p, i, b) ==> IsSet(c, i, b) {
      forall b: nat | Bit(p[i], b) ensures Bit(At(c, i), b) { assert IsSet(p, i, b); }
    }
  }

  // Merging keeps the flags of both, and sets no other.
  lemma MergedIsBitwise(a: Flags, c: Flags, i: nat, b: nat)
    ensures IsSet(Merged(a, c), i, b) <==> IsSet(a, i, b) || IsSet(c, i, b)
  {
    hide Bit;
    BitOr(At(a, i), At(c, i), b);
    BitZero(b);
  }

  lemma WithinAt(p: Flags, c: Flags, i: nat)
    requires Within(p, c)
    ensures Subset(At(p, i), At(c, i))
  {
  }

  lemma WithinTrans(a: Flags, b: Flags, c: Flags)
    requires Within(a, b) && Within(b, c)
    ensures Within(a, c)
  {
    forall i: nat | i < |a| ensures Subset(a[i], At(c, i)) {
      WithinAt(b, c, i);
      SubsetTrans(a[i], At(b, i), At(c, i));
    }
  }

  lemma WithinRefl(a: Flags)
    ensures Within(a, a)
  {
    forall i: nat | i < |a| ensures Subset(a[i], At(a, i)) { SubsetOr(a[i], a[i]); OrSame(a[i]); }
  }

  lemma {:induction false} OrSame(a: nat)
    ensures Or(a, a) == a
  {
    if a != 0 { OrSame(a / 2); }
  }

  // Merging is the least upper bound.
  lemma MergedIsJoin(a: Flags, b: Flags)
    ensures Within(a, Merged(a, b)) && Within(b, Merged(a, b))
    ensures forall c :: Within(a, c) && Within(b, c) ==> Within(Merged(a, b), c)
  {
    forall i: nat | i < |a| ensures Subset(a[i], At(Merged(a, b), i)) { SubsetOr(At(a, i), At(b, i)); }
    forall i: nat | i < |b| ensures Subset(b[i], At(Merged(a, b), i)) { SubsetOr(At(a, i), At(b, i)); }
    forall c | Within(a, c) && Within(b, c) ensures Within(Merged(a, b), c) {
      forall i: nat | i < |Merged(a, b)| ensures Subset(Merged(a, b)[i], At(c, i)) {
        WithinAt(a, c, i);
        WithinAt(b, c, i);
        OrLeast(At(a, i), At(b, i), At(c, i));
      }
    }
  }

  lemma MergedAssoc(a: Flags, b: Flags, c: Flags)
    ensures Merged(Merged(a, b), c) == Merged(a, Merged(b, c))
  {
    forall i: nat | i < |Merged(Merged(a, b), c)|
      ensures Merged(Merged(a, b), c)[i] == Merged(a, Merged(b, c))[i]
    {
      OrAssoc(At(a, i), At(b, i), At(c, i));
      OrComm(At(a, i), 0);
      OrComm(At(b, i), 0);
    }
  }

  lemma MergedComm(a: Flags, b: Flags)
    ensures Merged(a, b) == Merged(b, a)
  {
    forall i: nat | i < |Merged(a, b)| ensures Merged(a, b)[i] == Merged(b, a)[i] {
      OrComm(At(a, i), At(b, i));
    }
  }

  // The number of flags set.
  function Count(f: Flags): nat {
    if f == [] then 0 else Count(f[..|f| - 1]) + Ones(f[|f| - 1])
  }

  // Words add up.
  lemma {:induction false} CountAdds(f: Flags, g: Flags)
    ensures Count(f + g) == Count(f) + Count(g)
    ensures forall w: Word :: Count([w]) == Ones(w)
  {
    forall w: Word ensures Count([w]) == Ones(w) { assert [w][..0] == []; }
    if g == [] {
      assert f + g == f;
    } else {
      var n := |g| - 1;
      assert (f + g)[..|f| + n] == f + g[..n];
      CountAdds(f, g[..n]);
    }
  }

  // A flag more counts one more.
  lemma {:induction false} OneMoreFlag(a: nat, b: nat)
    requires !Bit(a, b)
    ensures Ones(Or(a, Pow2(b))) == Ones(a) + 1 && Ones(0) == 0
    decreases b
  {
    if b == 0 {
      assert Pow2(0) == 1;
      OrZero(a / 2);
    } else {
      OneMoreFlag(a / 2, b - 1);
    }
  }

  lemma {:induction false} OrZero(a: nat)
    ensures Or(a, 0) == a
  {
    if a != 0 { OrZero(a / 2); }
  }

  lemma WrapsOnce(a: nat, b: nat)
    ensures (a % UINT32_LIMIT + b) % UINT32_LIMIT == (a + b) % UINT32_LIMIT
  {
  }

  // FlagSliceConfig.Score: the count is 32 bits wide.
  method Score(config: Flags) returns (count: Word)
    ensures count == Count(config) % UINT32_LIMIT
  {
    count := 0;
    for i := 0 to |config|
      invariant count == Count(config[..i]) % UINT32_LIMIT
    {
      assert config[..i + 1][..i] == config[..i];
      var bits := Kernighan(config[i]);
      WrapsOnce(Count(config[..i]), bits);
      count := (count + bits) % UINT32_LIMIT;
    }
    assert config[..|config|] == config;
  }

  // The count of a slice padded with zero words up to n.
  lemma {:induction false} CountPrefix(f: Flags, n: nat)
    requires n <= |f|
    ensures Count(f[..n]) <= Count(f)
    decreases |f|
  {
    if n < |f| {
      CountPrefix(f[..|f| - 1], n);
      assert f[..|f| - 1][..n] == f[..n];
    } else {
      assert f[..n] == f;
    }
  }

  lemma {:induction false} CountMonotone(a: Flags, b: Flags)
    requires Within(a, b)
    ensures Count(a) <= Count(b)
    decreases |a|
  {
    if a != [] {
      var n := |a| - 1;
      var b' := if n < |b| then b[..n] else b;
      assert Within(a[..n], b') by {
        forall i: nat | i < n ensures Subset(a[..n][i], At(b', i)) { assert a[..n][i] == a[i]; }
      }
      CountMonotone(a[..n], b');
      OnesMonotone(a[n], At(b, n));
      if n < |b| {
        CountPrefix(b, n + 1);
        assert b[..n + 1][..n] == b[..n];
      }
    }
  }
}
