// Bitwise operators of Go's unsigned integers, written out bit by bit over naturals:
// a uint32 is a natural below 2^32 and a byte is a natural below 2^8.
module Bits {
  const UINT32_LIMIT: nat := 0x1_0000_0000

  type Word = w: nat | w < UINT32_LIMIT
  type Byte = b: nat | b < 256

  // a | b
  function Or(a: nat, b: nat): nat {
    if a == 0 then b
    else (if a % 2 == 1 || b % 2 == 1 then 1 else 0) + 2 * Or(a / 2, b / 2)
  }

  // a & b
  function And(a: nat, b: nat): nat {
    if a == 0 then 0
    else (if a % 2 == 1 && b % 2 == 1 then 1 else 0) + 2 * And(a / 2, b / 2)
  }

  // a &^ b
  function AndNot(a: nat, b: nat): nat {
    if a == 0 then 0
    else (if a % 2 == 1 && b % 2 == 0 then 1 else 0) + 2 * AndNot(a / 2, b / 2)
  }

  // a ^ b
  function Xor(a: nat, b: nat): nat {
    if a == 0 then b
    else (if a % 2 != b % 2 then 1 else 0) + 2 * Xor(a / 2, b / 2)
  }

  // 1 << i
  function Pow2(i: nat): (p: nat)
    ensures p >= 1
  {
    if i == 0 then 1 else 2 * Pow2(i - 1)
  }

  // Bit number i of a is set.
  predicate Bit(a: nat, i: nat)
    decreases i
  {
    if i == 0 then a % 2 == 1 else Bit(a / 2, i - 1)
  }

  // Every bit of a is a bit of b.
  predicate Subset(a: nat, b: nat) {
    AndNot(a, b) == 0
  }

  // The number of set bits.
  function Ones(a: nat): nat {
    if a == 0 then 0 else a % 2 + Ones(a / 2)
  }

  lemma {:induction false} BitZero(i: nat)
    ensures !Bit(0, i)
    decreases i
  {
    if i > 0 { BitZero(i - 1); }
  }

  lemma {:induction false} BitOr(a: nat, b: nat, i: nat)
    ensures Bit(Or(a, b), i) <==> Bit(a, i) || Bit(b, i)
    decreases i
  {
    if a == 0 {
      BitZero(i);
    } else if i > 0 {
      BitOr(a / 2, b / 2, i - 1);
    }
  }

  lemma {:induction false} BitPow2(j: nat, i: nat)
    ensures Bit(Pow2(j), i) <==> i == j
    decreases i
  {
    if i > 0 {
      if j == 0 {
        BitZero(i - 1);
      } else {
        BitPow2(j - 1, i - 1);
      }
    }
  }

  lemma {:induction false} OrBelow(a: nat, b: nat, n: nat)
    requires a < Pow2(n) && b < Pow2(n)
    ensures Or(a, b) < Pow2(n)
    decreases n
  {
    if a != 0 {
      OrBelow(a / 2, b / 2, n - 1);
    }
  }

  lemma {:induction false} OrWord(a: Word, b: Word)
    ensures Or(a, b) < UINT32_LIMIT
  {
    Pow2Word();
    OrBelow(a, b, 32);
  }

  lemma Pow2Word()
    ensures Pow2(32) == UINT32_LIMIT
  {
    assert Pow2(8) == 256;
    assert Pow2(16) == 0x1_0000;
    assert Pow2(24) == 0x100_0000;
  }

  lemma {:induction false} Pow2Less(i: nat, j: nat)
    requires i < j
    ensures Pow2(i) < Pow2(j)
  {
    if i < j - 1 { Pow2Less(i, j - 1); }
  }

  lemma {:induction false} OrAssoc(a: nat, b: nat, c: nat)
    ensures Or(Or(a, b), c) == Or(a, Or(b, c))
  {
    if a != 0 { OrAssoc(a / 2, b / 2, c / 2); }
  }

  lemma {:induction false} OrComm(a: nat, b: nat)
    ensures Or(a, b) == Or(b, a)
    decreases a + b
  {
    if a + b != 0 { OrComm(a / 2, b / 2); }
  }

  lemma {:induction false} SubsetOr(a: nat, b: nat)
    ensures Subset(a, Or(a, b)) && Subset(b, Or(a, b))
    decreases a + b
  {
    if a + b != 0 {
      SubsetOr(a / 2, b / 2);
    }
  }

  lemma {:induction false} OrLeast(a: nat, b: nat, c: nat)
    requires Subset(a, c) && Subset(b, c)
    ensures Subset(Or(a, b), c)
  {
    if a != 0 { OrLeast(a / 2, b / 2, c / 2); }
  }

  lemma {:induction false} SubsetTrans(a: nat, b: nat, c: nat)
    requires Subset(a, b) && Subset(b, c)
    ensures Subset(a, c)
  {
    if a != 0 { SubsetTrans(a / 2, b / 2, c / 2); }
  }

  lemma BitStep(a: nat, i: nat)
    ensures Bit(a, i) == if i == 0 then a % 2 == 1 else Bit(a / 2, i - 1)
  {
  }

  // The test `a &^ b == 0` of Decide is exactly bitwise inclusion.
  lemma {:induction false} SubsetIsBitwise(a: nat, b: nat)
    ensures Subset(a, b) <==> forall i: nat :: Bit(a, i) ==> Bit(b, i)
  {
    if a == 0 {
      forall i: nat ensures !Bit(a, i) { BitZero(i); }
    } else {
      SubsetIsBitwise(a / 2, b / 2);
      BitStep(a, 0);
      BitStep(b, 0);
      assert Subset(a, b) <==> Subset(a / 2, b / 2) && !(a % 2 == 1 && b % 2 == 0);
      hide Bit, AndNot, Subset;
      if Subset(a, b) {
        forall i: nat | Bit(a, i) ensures Bit(b, i) {
          BitStep(a, i);
          BitStep(b, i);
        }
      } else if !Subset(a / 2, b / 2) {
        var i: nat :| Bit(a / 2, i) && !Bit(b / 2, i);
        BitStep(a, i + 1);
        BitStep(b, i + 1);
      }
    }
  }

  lemma {:induction false} AndBelow(a: nat, b: nat)
    ensures And(a, b) <= a && And(a, b) <= b
  {
    if a != 0 { AndBelow(a / 2, b / 2); }
  }

  // One step of Kernighan's loop clears exactly one bit.
  lemma {:induction false} ClearLowest(a: nat)
    requires a > 0
    ensures And(a, a - 1) < a
    ensures Ones(a) == Ones(And(a, a - 1)) + 1
  {
    if a % 2 == 1 {
      AndSame(a / 2);
      assert (a - 1) / 2 == a / 2;
    } else {
      ClearLowest(a / 2);
      assert (a - 1) / 2 == a / 2 - 1;
    }
  }

  lemma {:induction false} AndSame(a: nat)
    ensures And(a, a) == a
  {
    if a != 0 { AndSame(a / 2); }
  }

  lemma {:induction false} OnesMonotone(a: nat, b: nat)
    requires Subset(a, b)
    ensures Ones(a) <= Ones(b)
  {
    if a != 0 { OnesMonotone(a / 2, b / 2); }
  }

  lemma {:induction false} OnesBelow(a: nat, n: nat)
    requires a < Pow2(n)
    ensures Ones(a) <= n
    decreases n
  {
    if a != 0 { OnesBelow(a / 2, n - 1); }
  }

  // Words with the same bits are equal.
  lemma {:induction false} SameBits(a: nat, b: nat)
    requires forall i: nat :: Bit(a, i) <==> Bit(b, i)
    ensures a == b
    decreases a + b
  {
    assert Bit(a, 0) == (a % 2 == 1) && Bit(b, 0) == (b % 2 == 1);
    if a + b > 0 {
      forall i: nat ensures Bit(a / 2, i) <==> Bit(b / 2, i) {
        assert Bit(a, i + 1) == Bit(a / 2, i) && Bit(b, i + 1) == Bit(b / 2, i);
      }
      SameBits(a / 2, b / 2);
    }
  }

  // The number whose bits below n are the members of s.
  function FromSet(s: set<nat>, n: nat): (w: nat)
    ensures w < Pow2(n)
    decreases n, s
  {
    if n == 0 then 0 else FromSet(s, n - 1) + (if n - 1 in s then Pow2(n - 1) else 0)
  }

  lemma {:induction false} BitAdd(a: nat, n: nat, i: nat)
    requires a < Pow2(n)
    ensures Bit(a + Pow2(n), i) <==> Bit(a, i) || i == n
    decreases n
  {
    if n == 0 {
      BitPow2(0, i);
      BitZero(i);
    } else if i > 0 {
      assert (a + Pow2(n)) / 2 == a / 2 + Pow2(n - 1);
      BitAdd(a / 2, n - 1, i - 1);
    }
  }

  lemma {:induction false} BitFromSet(s: set<nat>, n: nat, i: nat)
    ensures Bit(FromSet(s, n), i) <==> i < n && i in s
  {
    if n == 0 {
      BitZero(i);
    } else {
      BitFromSet(s, n - 1, i);
      BitAdd(FromSet(s, n - 1), n - 1, i);
    }
  }

  // asciiFlags.go and flagSlice.go: the lowest set bit is cleared and counted until none is left.
  method Kernighan(w: Word) returns (count: nat)
    ensures count == Ones(w) <= 32
  {
    Pow2Word();
    OnesBelow(w, 32);
    var flags: nat := w;
    count := 0;
    while flags > 0
      invariant count + Ones(flags) == Ones(w)
      decreases flags
    {
      ClearLowest(flags);
      flags := And(flags, flags - 1);
      count := count + 1;
    }
  }
}
