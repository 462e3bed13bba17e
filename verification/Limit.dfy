// limit.go: counters are stored in one byte on an exponential scale, piled up in a list,
// and learned as a single upper limit.
module Limit {
  import opened Bits

  type LimitPile = seq<Byte>

  // The result of the encoding loop before the cap at 255.
  function Encode(val: nat): nat {
    if val < 16 then val else 16 + Encode((val - 16) / 2)
  }

  // The smallest counter in step r of batch k: batch k has sixteen steps of width 2^k.
  function StepStart(k: nat, r: nat): nat {
    16 * (Pow2(k) - 1) + r * Pow2(k)
  }

  lemma StepStartDoubles(k: nat, r: nat)
    requires k > 0
    ensures StepStart(k, r) == 16 + 2 * StepStart(k - 1, r)
  {
    assert r * (2 * Pow2(k - 1)) == 2 * (r * Pow2(k - 1));
  }

  // The loop yields 16k+r exactly on step r of batch k.
  lemma {:induction false} ClosedForm(val: nat, k: nat, r: nat)
    requires r < 16
    ensures Encode(val) == 16 * k + r <==> StepStart(k, r) <= val < StepStart(k, r + 1)
  {
    if k == 0 {
      assert StepStart(0, r) == r && StepStart(0, r + 1) == r + 1;
    } else {
      StepStartDoubles(k, r);
      StepStartDoubles(k, r + 1);
      if val >= 16 { ClosedForm((val - 16) / 2, k - 1, r); }
    }
  }

  lemma {:induction false} EncodeMonotone(a: nat, b: nat)
    requires a <= b
    ensures Encode(a) <= Encode(b)
  {
    if a >= 16 { EncodeMonotone((a - 16) / 2, (b - 16) / 2); }
  }

  lemma {:induction false} EncodeStrictAt255(val: nat)
    ensures Encode(val) >= 255 <==> val >= 1015792
  {
    assert Pow2(15) == 32768 by { assert Pow2(7) == 128 && Pow2(11) == 2048; }
    assert StepStart(15, 15) == 1015792;
    ClosedForm(1015792, 15, 15);
    if val >= 1015792 {
      EncodeMonotone(1015792, val);
    } else {
      EncodeMonotone(val, 1015791);
      assert StepStart(15, 14) == 983024;
      ClosedForm(1015791, 15, 14);
    }
  }

  // The stored byte.
  function Encoded(val: nat): Byte {
    if Encode(val) > 255 then 255 else Encode(val)
  }

  // LimitProfile.Profile
  method Profile(val: nat) returns (res: Byte)
    ensures res == Encoded(val)
    ensures forall k: nat, r: nat | r < 16 && 16 * k + r < 255 ::
      res == 16 * k + r <==> StepStart(k, r) <= val < StepStart(k, r + 1)
    ensures res == 255 <==> val >= 1015792
  {
    var v: nat := val;
    var base: nat := 0;
    while v >= 16
      invariant base + Encode(v) == Encode(val)
    {
      base := base + 16;
      v := v - 16;
      v := v / 2;
    }
    var sum := v + base;
    res := if sum > 255 then 255 else sum;
    forall k: nat, r: nat | r < 16 && 16 * k + r < 255
      ensures res == 16 * k + r <==> StepStart(k, r) <= val < StepStart(k, r + 1)
    {
      ClosedForm(val, k, r);
    }
    EncodeStrictAt255(val);
  }

  // LimitConfig.Decide approves the profile.
  predicate Allows(config: Byte, profile: Byte) {
    profile <= config
  }

  // The largest of the old limit and everything in the pile.
  function Learned(config: Byte, pile: LimitPile): (c: Byte) {
    if pile == [] then config
    else
      var rest := Learned(config, pile[..|pile| - 1]);
      if pile[|pile| - 1] > rest then pile[|pile| - 1] else rest
  }

  // LimitConfig.Learn
  method Learn(config: Byte, pile: LimitPile) returns (c: Byte)
    ensures c == Learned(config, pile)
    ensures config <= c && (forall v | v in pile :: v <= c) && (c == config || c in pile)
  {
    if |pile| == 0 { return config; }
    LearnedIsMax(config, pile);
    var max := pile[0];
    for i := 0 to |pile|
      invariant max in pile
      invariant forall j | 0 <= j < i :: pile[j] <= max
    {
      if max < pile[i] { max := pile[i]; }
    }
    c := if max > config then max else config;
  }

  lemma {:induction false} LearnedIsMax(config: Byte, pile: LimitPile)
    ensures config <= Learned(config, pile)
    ensures forall v | v in pile :: v <= Learned(config, pile)
    ensures Learned(config, pile) == config || Learned(config, pile) in pile
  {
    if pile != [] {
      LearnedIsMax(config, pile[..|pile| - 1]);
      assert pile == pile[..|pile| - 1] + [pile[|pile| - 1]];
    }
  }

  // Appending piles learns both, in either order.
  lemma LearnedAppend(config: Byte, p: LimitPile, q: LimitPile)
    ensures Learned(config, p + q) == Learned(Learned(config, p), q)
    ensures Learned(config, p + q) == Learned(config, q + p)
  {
    LearnedIsMax(config, p + q);
    LearnedIsMax(config, q + p);
    LearnedIsMax(config, p);
    LearnedIsMax(Learned(config, p), q);
    assert forall v :: v in p + q <==> v in p || v in q;
    assert forall v :: v in q + p <==> v in p || v in q;
  }

  // LimitConfig.Fuse
  function Fused(a: Byte, b: Byte): Byte {
    if a < b then b else a
  }
}
