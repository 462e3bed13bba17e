// ipSet.go: sets of addresses, and address blocks that inflate up to a class C subnet.
module IpSet {
  import opened Wrappers
  import opened Bits
  import Modulo

  // net.IP: four bytes, or sixteen.
  type Address = a: seq<Byte> | |a| == 4 || |a| == 16 witness [0, 0, 0, 0]

  function Last(a: Address): Byte {
    a[|a| - 1]
  }

  // The class C subnet of an address.
  function Subnet(a: Address): seq<Byte> {
    a[..|a| - 1]
  }

  // ---------- Arithmetic of the last byte ----------

  // a >> j
  function Shift(a: nat, j: nat): nat
    decreases j
  {
    if j == 0 then a else Shift(a / 2, j - 1)
  }

  // bits.Len8
  function Len(x: nat): nat {
    if x == 0 then 0 else 1 + Len(x / 2)
  }

  // bits.LeadingZeros8
  function LeadingZeros8(x: Byte): (n: nat)
    ensures n <= 8
  {
    LenBelow(x, 8);
    assert Pow2(8) == 256;
    8 - Len(x)
  }

  // The last byte of a network mask that leaves h bits to the hosts.
  function MaskByte(h: nat): Byte
    requires h <= 8
  {
    Pow2Between(h, 8);
    assert Pow2(8) == 256;
    256 - Pow2(h)
  }

  // The host bits of a last mask byte: its trailing zeros.
  function HostBits(m: nat, n: nat): (h: nat)
    ensures h <= n
  {
    if n == 0 || m % 2 == 1 then 0 else 1 + HostBits(m / 2, n - 1)
  }

  lemma Pow2Between(h: nat, n: nat)
    requires h <= n
    ensures Pow2(h) <= Pow2(n)
  {
    if h < n { Pow2Less(h, n); }
  }

  lemma {:induction false} LenBelow(x: nat, n: nat)
    requires x < Pow2(n)
    ensures Len(x) <= n
    decreases n
  {
    if x != 0 { LenBelow(x / 2, n - 1); }
  }

  lemma {:induction false} HostBitsOf(h: nat, n: nat)
    requires h <= n
    ensures Pow2(h) <= Pow2(n)
    ensures HostBits(Pow2(n) - Pow2(h), n) == h
    decreases n
  {
    Pow2Between(h, n);
    if h > 0 {
      HostBitsOf(h - 1, n - 1);
      assert (Pow2(n) - Pow2(h)) / 2 == Pow2(n - 1) - Pow2(h - 1);
    }
  }

  // One bit of a & b.
  lemma AndStep(a: nat, b: nat)
    ensures And(a, b) == (if a % 2 == 1 && b % 2 == 1 then 1 else 0) + 2 * And(a / 2, b / 2)
  {
  }

  // One bit of the mask Pow2(n) - Pow2(h).
  lemma MaskStep(n: nat, h: nat)
    requires 0 < n && h <= n
    ensures Pow2(h) <= Pow2(n)
    ensures var m := Pow2(n) - Pow2(h);
      if h == 0 then m % 2 == 1 && m / 2 == Pow2(n - 1) - 1
      else Pow2(h - 1) <= Pow2(n - 1) && m % 2 == 0 && m / 2 == Pow2(n - 1) - Pow2(h - 1)
  {
    Pow2Between(h, n);
    if h > 0 { Pow2Between(h - 1, n - 1); }
  }

  lemma {:induction false} AndOnes(x: nat, n: nat)
    requires x < Pow2(n)
    ensures And(x, Pow2(n) - 1) == x
    decreases n
  {
    if x != 0 {
      MaskStep(n, 0);
      AndStep(x, Pow2(n) - 1);
      hide And;
      AndOnes(x / 2, n - 1);
    }
  }

  // Two bytes agree under a mask exactly when they agree above its host bits.
  lemma {:induction false} AgreeUnderMask(x: nat, y: nat, h: nat, n: nat)
    requires x < Pow2(n) && y < Pow2(n) && h <= n
    ensures Pow2(h) <= Pow2(n)
    ensures And(x, Pow2(n) - Pow2(h)) == And(y, Pow2(n) - Pow2(h)) <==> Shift(x, h) == Shift(y, h)
    decreases h
  {
    hide And;
    Pow2Between(h, n);
    if h == 0 {
      AndOnes(x, n);
      AndOnes(y, n);
    } else {
      MaskStep(n, h);
      AndStep(x, Pow2(n) - Pow2(h));
      AndStep(y, Pow2(n) - Pow2(h));
      AgreeUnderMask(x / 2, y / 2, h - 1, n - 1);
    }
  }

  // Combining two masks leaves the larger number of host bits.
  lemma {:induction false} AndMasks(g: nat, h: nat, n: nat)
    requires g <= n && h <= n
    ensures Pow2(g) <= Pow2(n) && Pow2(h) <= Pow2(n)
    ensures And(Pow2(n) - Pow2(g), Pow2(n) - Pow2(h)) == Pow2(n) - Pow2(if g < h then h else g)
    decreases n
  {
    hide And;
    Pow2Between(g, n);
    Pow2Between(h, n);
    var a, b := Pow2(n) - Pow2(g), Pow2(n) - Pow2(h);
    if g == 0 {
      AndComm(a, b);
      AndOnes(b, n);
    } else if h == 0 {
      AndOnes(a, n);
    } else {
      MaskStep(n, g);
      MaskStep(n, h);
      AndStep(a, b);
      AndMasks(g - 1, h - 1, n - 1);
    }
  }

  lemma {:induction false} AndComm(a: nat, b: nat)
    ensures And(a, b) == And(b, a)
    decreases a + b
  {
    if a + b != 0 { AndComm(a / 2, b / 2); }
  }

  lemma {:induction false} XorZero(a: nat, b: nat)
    ensures Xor(a, b) == 0 <==> a == b
    decreases a + b
  {
    if a != 0 { XorZero(a / 2, b / 2); }
  }

  // The highest differing bit: a and b agree above bit j exactly when Len(a ^ b) <= j.
  lemma {:induction false} AgreeAbove(a: nat, b: nat, j: nat)
    ensures Len(Xor(a, b)) <= j <==> Shift(a, j) == Shift(b, j)
    decreases j
  {
    XorZero(a, b);
    if j > 0 && a != b {
      AgreeAbove(a / 2, b / 2, j - 1);
      XorHalf(a, b);
    }
  }

  lemma {:induction false} XorHalf(a: nat, b: nat)
    ensures Xor(a, b) / 2 == Xor(a / 2, b / 2)
  {
  }

  lemma {:induction false} XorBelow(a: nat, b: nat, n: nat)
    requires a < Pow2(n) && b < Pow2(n)
    ensures Xor(a, b) < Pow2(n)
    decreases n
  {
    if a != 0 { XorBelow(a / 2, b / 2, n - 1); }
  }

  lemma {:induction false} ShiftMore(a: nat, b: nat, j: nat, k: nat)
    requires j <= k && Shift(a, j) == Shift(b, j)
    ensures Shift(a, k) == Shift(b, k)
    decreases k
  {
    if j > 0 {
      ShiftMore(a / 2, b / 2, j - 1, k - 1);
    }
  }

  function XorByte(a: Byte, b: Byte): Byte {
    assert Pow2(8) == 256;
    XorBelow(a, b, 8);
    Xor(a, b)
  }

  // ---------- Address blocks ----------

  // net.IPNet, with a mask as long as the address
  datatype Net = Net(ip: Address, mask: seq<Byte>)
  type Block = b: Net | |b.mask| == |b.ip| witness Net([0, 0, 0, 0], [255, 255, 255, 255])

  // Masks leave host bits only in their last byte.
  ghost predicate Formed(b: Block) {
    && (forall i | 0 <= i < |b.mask| - 1 :: b.mask[i] == 255)
    && b.mask[|b.mask| - 1] == MaskByte(Hosts(b))
  }

  function Hosts(b: Block): (h: nat)
    ensures h <= 8
  {
    HostBits(b.mask[|b.mask| - 1], 8)
  }

  const MAPPED_PREFIX: seq<Byte> := [0, 0, 0, 0, 0, 0, 0, 0, 0, 0, 255, 255]

  // net.IP.To4 where it applies: an address of four bytes, also when written in sixteen.
  function Canon(a: Address): Address {
    if |a| == 16 && a[..12] == MAPPED_PREFIX then a[12..] else a
  }

  lemma CanonLength(a: Address)
    ensures |Canon(a)| <= |a|
  {
  }

  // net.IPNet.Contains
  predicate Contains(b: Block, ip: Address)
  {
    var network, x := Canon(b.ip), Canon(ip);
    var mask := b.mask[|b.mask| - |network|..];
    |x| == |network| && forall i | 0 <= i < |x| :: And(network[i], mask[i]) == And(x[i], mask[i])
  }

  // Comparing under a mask with h host bits.
  lemma AgreeUnder(network: Address, x: Address, mask: seq<Byte>, h: nat)
    requires |x| == |network| == |mask| && h <= 8
    requires (forall i | 0 <= i < |x| - 1 :: mask[i] == 255) && mask[|x| - 1] == MaskByte(h)
    ensures (forall i | 0 <= i < |x| :: And(network[i], mask[i]) == And(x[i], mask[i]))
            <==> Subnet(x) == Subnet(network) && Shift(Last(x), h) == Shift(Last(network), h)
  {
    hide And, Shift, MaskByte;
    var n := |x|;
    LastByteMasked(network[n - 1], x[n - 1], h);
    forall i | 0 <= i < n - 1
      ensures And(network[i], mask[i]) == And(x[i], mask[i]) <==> Subnet(network)[i] == Subnet(x)[i]
    {
      LastByteMasked(network[i], x[i], 0);
      ShiftNone(network[i], x[i]);
    }
  }

  // A block holds the addresses of its subnet that agree with it above the host bits.
  lemma ContainsMeaning(b: Block, ip: Address)
    requires Formed(b)
    ensures Contains(b, ip) <==> (var network, x := Canon(b.ip), Canon(ip);
      |x| == |network| && Subnet(x) == Subnet(network) && Shift(Last(x), Hosts(b)) == Shift(Last(network), Hosts(b)))
  {
    hide And, Shift, HostBits, Canon, MaskByte, Subnet, Last;
    var network, x := Canon(b.ip), Canon(ip);
    CanonLength(b.ip);
    if |x| == |network| {
      var mask := b.mask[|b.mask| - |network|..];
      assert forall i | 0 <= i < |mask| - 1 :: mask[i] == b.mask[|b.mask| - |network| + i] == 255;
      assert mask[|mask| - 1] == b.mask[|b.mask| - 1] == MaskByte(Hosts(b));
      AgreeUnder(network, x, mask, Hosts(b));
    }
  }

  lemma LastByteMasked(x: Byte, y: Byte, h: nat)
    requires h <= 8
    ensures And(x, MaskByte(h)) == And(y, MaskByte(h)) <==> Shift(x, h) == Shift(y, h)
    ensures MaskByte(0) == 255
  {
    assert Pow2(8) == 256;
    AgreeUnderMask(x, y, h, 8);
  }

  lemma ShiftNone(x: nat, y: nat)
    ensures Shift(x, 0) == x && Shift(y, 0) == y
  {
  }

  // Between addresses of one length no conversion is visible.
  lemma ContainsSameLength(b: Block, ip: Address)
    requires Formed(b) && |b.ip| == |ip|
    ensures Contains(b, ip) <==>
            Subnet(ip) == Subnet(b.ip) && Shift(Last(ip), Hosts(b)) == Shift(Last(b.ip), Hosts(b))
  {
    ContainsMeaning(b, ip);
    hide Shift, Contains, Formed, Hosts;
    CanonSplit(ip);
    CanonSplit(b.ip);
    if |ip| == 16 {
      assert ip[..12] == Subnet(ip)[..12] && b.ip[..12] == Subnet(b.ip)[..12];
    }
  }

  lemma CanonSplit(a: Address)
    ensures Last(Canon(a)) == Last(a)
    ensures Canon(a) == a || (|a| == 16 && |Canon(a)| == 4 && Subnet(a) == MAPPED_PREFIX + Subnet(Canon(a)))
  {
    if Canon(a) != a {
      assert Subnet(a) == a[..12] + a[12..15];
      assert Subnet(Canon(a)) == a[12..15];
    }
  }

  // ---------- Inflating and learning ----------

  // net.CIDRMask of an address length and a number of host bits
  function CidrMask(length: nat, h: nat): (mask: seq<Byte>)
    requires length > 0 && h <= 8
    ensures |mask| == length
  {
    seq(length - 1, i => 255) + [MaskByte(h)]
  }

  // CIDR.InflateBy: the block as it is left, or None when the address is turned away.
  function Inflate(b: Block, ip: Address): (r: Option<Block>)
  {
    if Contains(b, ip) then Some(b)
    else if |ip| != |b.ip| || Subnet(ip) != Subnet(b.ip) then None
    else
      var last := |b.ip| - 1;
      var shared := LeadingZeros8(XorByte(b.ip[last], ip[last]));
      AndBelow(b.mask[last], MaskByte(8 - shared));
      Some(b.(mask := b.mask[last := And(b.mask[last], MaskByte(8 - shared))]))
  }

  function Single(ip: Address): (b: Block)
    ensures Formed(b) && Hosts(b) == 0 && b.ip == ip
  {
    assert Pow2(8) == 256;
    HostBitsOf(0, 8);
    Net(ip, CidrMask(|ip|, 0))
  }

  // Inflating keeps the address of the block, only ever widens it, and does so just enough.
  lemma InflateMeaning(b: Block, ip: Address)
    requires Formed(b)
    ensures |ip| == |b.ip| ==> (Inflate(b, ip).Some? <==> Subnet(ip) == Subnet(b.ip))
    ensures Inflate(b, ip).Some? ==> var c := Inflate(b, ip).value;
      Formed(c) && c.ip == b.ip && Contains(c, ip) && Hosts(b) <= Hosts(c)
    ensures Inflate(b, ip).Some? && |ip| == |b.ip| ==> var c := Inflate(b, ip).value;
      forall j: nat | j <= 8 :: Hosts(c) <= j <==> Hosts(b) <= j && Shift(Last(ip), j) == Shift(Last(b.ip), j)
  {
    hide Shift, HostBits, Canon, Contains, Xor, Len, And;
    if |ip| == |b.ip| {
      ContainsSameLength(b, ip);
    }
    if Contains(b, ip) {
      if |ip| == |b.ip| {
        forall j: nat | Hosts(b) <= j <= 8 ensures Shift(Last(ip), j) == Shift(Last(b.ip), j) {
          ShiftMore(Last(ip), Last(b.ip), Hosts(b), j);
        }
      }
    } else if |ip| == |b.ip| && Subnet(ip) == Subnet(b.ip) {
      var c, last := Inflate(b, ip).value, |b.ip| - 1;
      var x := XorByte(b.ip[last], ip[last]);
      var g := 8 - LeadingZeros8(x);
      Combined(Hosts(b), g);
      var h := if Hosts(b) < g then g else Hosts(b);
      assert Hosts(c) == h && Formed(c);
      forall j: nat ensures g <= j <==> Shift(Last(ip), j) == Shift(Last(b.ip), j) {
        AgreeAbove(b.ip[last], ip[last], j);
      }
      ContainsSameLength(c, ip);
    }
  }

  lemma Combined(g: nat, h: nat)
    requires g <= 8 && h <= 8
    ensures var m := if g < h then h else g;
      And(MaskByte(g), MaskByte(h)) == MaskByte(m) && HostBits(MaskByte(m), 8) == m
  {
    hide And, HostBits;
    assert Pow2(8) == 256;
    AndMasks(g, h, 8);
    HostBitsOf(if g < h then h else g, 8);
  }

  // One address of IpSetConfig.Learn: the first block that takes it, or a block of its own.
  function LearnOne(blocks: seq<Block>, ip: Address): (r: seq<Block>)
  {
    if blocks == [] then [Single(ip)]
    else
      match Inflate(blocks[0], ip)
      case Some(b) => [b] + blocks[1..]
      case None => [blocks[0]] + LearnOne(blocks[1..], ip)
  }

  // IpSetConfig.Learn
  function Learned(blocks: seq<Block>, ips: seq<Address>): (r: seq<Block>)
  {
    if ips == [] then blocks else LearnOne(Learned(blocks, ips[..|ips| - 1]), ips[|ips| - 1])
  }

  ghost predicate AllFormed(blocks: seq<Block>) {
    forall b | b in blocks :: Formed(b)
  }

  predicate Accepts(blocks: seq<Block>, ip: Address)
  {
    exists b | b in blocks :: Contains(b, ip)
  }

  // LearnOne changes the first block that takes the address; without one it appends a block.
  lemma {:induction false} LearnOneFirst(blocks: seq<Block>, ip: Address, k: nat)
    requires k <= |blocks| && forall i | 0 <= i < k :: Inflate(blocks[i], ip).None?
    ensures k == |blocks| ==> LearnOne(blocks, ip) == blocks + [Single(ip)]
    ensures k < |blocks| && Inflate(blocks[k], ip).Some?
            ==> LearnOne(blocks, ip) == blocks[k := Inflate(blocks[k], ip).value]
    decreases k
  {
    hide Inflate, Single;
    if k > 0 {
      LearnOneFirst(blocks[1..], ip, k - 1);
      assert blocks == [blocks[0]] + blocks[1..];
    }
  }

  lemma LearnOneAt(blocks: seq<Block>, ip: Address) returns (k: nat)
    ensures k <= |blocks| && forall i | 0 <= i < k :: Inflate(blocks[i], ip).None?
    ensures k == |blocks| ==> LearnOne(blocks, ip) == blocks + [Single(ip)]
    ensures k < |blocks| ==> Inflate(blocks[k], ip).Some?
                              && LearnOne(blocks, ip) == blocks[k := Inflate(blocks[k], ip).value]
  {
    hide Inflate, Single, LearnOne;
    k := 0;
    while k < |blocks| && Inflate(blocks[k], ip).None?
      invariant k <= |blocks| && forall i | 0 <= i < k :: Inflate(blocks[i], ip).None?
    {
      k := k + 1;
    }
    LearnOneFirst(blocks, ip, k);
  }

  // Inflating a block loses none of its addresses.
  lemma InflateKeeps(b: Block, ip: Address, x: Address)
    requires Formed(b) && Inflate(b, ip).Some? && Contains(b, x)
    ensures Formed(Inflate(b, ip).value) && Contains(Inflate(b, ip).value, x)
  {
    var c := Inflate(b, ip).value;
    InflateMeaning(b, ip);
    hide Inflate, Contains, Shift, Canon;
    ContainsMeaning(b, x);
    ContainsMeaning(c, x);
    ShiftMore(Last(Canon(x)), Last(Canon(b.ip)), Hosts(b), Hosts(c));
  }

  lemma LearnOneSound(blocks: seq<Block>, ip: Address, x: Address)
    requires AllFormed(blocks)
    ensures AllFormed(LearnOne(blocks, ip)) && Accepts(LearnOne(blocks, ip), ip)
    ensures Accepts(blocks, x) ==> Accepts(LearnOne(blocks, ip), x)
  {
    hide Inflate, Contains, Formed;
    var i := LearnOneAt(blocks, ip);
    var r := LearnOne(blocks, ip);
    if i == |blocks| {
      SingleContains(ip);
      assert r[|blocks|] in r;
      forall b | b in blocks ensures b in r {}
    } else {
      InflateMeaning(blocks[i], ip);
      assert r[i] in r;
      if Accepts(blocks, x) {
        var b :| b in blocks && Contains(b, x);
        var k :| 0 <= k < |blocks| && blocks[k] == b;
        if k == i { InflateKeeps(b, ip, x); }
        assert r[k] in r;
      }
    }
  }

  lemma SingleContains(ip: Address)
    ensures Formed(Single(ip)) && Contains(Single(ip), ip)
  {
  }

  // Every address learned is contained, and no address accepted before is lost, for any mix of
  // address lengths.
  lemma {:induction false} LearnSound(blocks: seq<Block>, ips: seq<Address>, x: Address)
    requires AllFormed(blocks)
    ensures AllFormed(Learned(blocks, ips))
    ensures x in ips || Accepts(blocks, x) ==> Accepts(Learned(blocks, ips), x)
  {
    hide Formed, LearnOne, Accepts;
    if ips != [] {
      var n := |ips| - 1;
      assert ips == ips[..n] + [ips[n]];
      LearnSound(blocks, ips[..n], x);
      LearnOneSound(Learned(blocks, ips[..n]), ips[n], x);
    }
  }

  lemma {:induction false} LearnedAppend(blocks: seq<Block>, a: seq<Address>, c: seq<Address>)
    ensures Learned(blocks, a + c) == Learned(Learned(blocks, a), c)
    decreases |c|
  {
    hide LearnOne;
    if c == [] {
      assert a + c == a;
    } else {
      var n := |c| - 1;
      assert (a + c)[..|a| + n] == a + c[..n];
      LearnedAppend(blocks, a, c[..n]);
    }
  }

  // ---------- The blocks are as tight as their subnets allow ----------

  // The addresses learned in the subnet of base agree with it above bit j.
  ghost predicate Agree(ips: seq<Address>, base: Address, j: nat) {
    forall x | x in ips && Subnet(x) == Subnet(base) :: Shift(Last(x), j) == Shift(Last(base), j)
  }

  // One block for each class C subnet where an address was learned, starting from one of these.
  ghost predicate OneEach(blocks: seq<Block>, ips: seq<Address>) {
    && (forall i | 0 <= i < |blocks| :: blocks[i].ip in ips)
    && (forall i, k | 0 <= i < k < |blocks| :: Subnet(blocks[i].ip) != Subnet(blocks[k].ip))
    && (forall x | x in ips :: HasBlock(blocks, x))
  }

  ghost predicate HasBlock(blocks: seq<Block>, x: Address) {
    exists i | 0 <= i < |blocks| :: Subnet(blocks[i].ip) == Subnet(x)
  }

  // The mask of every block is the longest prefix shared by the addresses learned in its subnet.
  ghost predicate Tight(blocks: seq<Block>, ips: seq<Address>) {
    forall i, j: nat | 0 <= i < |blocks| && j <= 8 :: Hosts(blocks[i]) <= j <==> Agree(ips, blocks[i].ip, j)
  }

  lemma {:induction false} LearnTight(ips: seq<Address>, length: nat)
    requires forall x | x in ips :: |x| == length
    ensures var r := Learned([], ips); AllFormed(r) && OneEach(r, ips) && Tight(r, ips)
  {
    hide LearnOne, Formed, Hosts, OneEach, Tight;
    if ips == [] {
      EmptyTight();
    } else {
      var n := |ips| - 1;
      LearnTight(ips[..n], length);
      assert ips == ips[..n] + [ips[n]];
      LearnSound([], ips, ips[n]);
      BasesLearned(Learned([], ips[..n]), ips[..n], length);
      LearnOneTight(Learned([], ips[..n]), ips[..n], ips[n], length);
    }
  }

  lemma BasesLearned(blocks: seq<Block>, ips: seq<Address>, length: nat)
    requires OneEach(blocks, ips) && forall x | x in ips :: |x| == length
    ensures forall b | b in blocks :: |b.ip| == length
  {
  }

  lemma EmptyTight()
    ensures OneEach([], []) && Tight([], [])
  {
  }

  lemma LearnOneTight(blocks: seq<Block>, ips: seq<Address>, ip: Address, length: nat)
    requires (forall x | x in ips :: |x| == length) && |ip| == length
    requires forall b | b in blocks :: |b.ip| == length
    requires AllFormed(blocks) && OneEach(blocks, ips) && Tight(blocks, ips)
    ensures var r, all := LearnOne(blocks, ip), ips + [ip]; OneEach(r, all) && Tight(r, all)
  {
    hide Inflate, Formed, Hosts, Agree, LearnOne, Tight, OneEach, Subnet;
    var k := LearnOneAt(blocks, ip);
    forall i | 0 <= i < |blocks| ensures Inflate(blocks[i], ip).Some? <==> Subnet(ip) == Subnet(blocks[i].ip) {
      InflateMeaning(blocks[i], ip);
    }
    if k == |blocks| {
      AppendTight(blocks, ips, ip);
    } else {
      InflateMeaning(blocks[k], ip);
      WidenOneEach(blocks, ips, ip, k, Inflate(blocks[k], ip).value);
      WidenTight(blocks, ips, ip, k);
    }
  }

  lemma AppendTight(blocks: seq<Block>, ips: seq<Address>, ip: Address)
    requires OneEach(blocks, ips) && Tight(blocks, ips)
    requires forall i | 0 <= i < |blocks| :: Subnet(blocks[i].ip) != Subnet(ip)
    ensures var r, all := blocks + [Single(ip)], ips + [ip]; OneEach(r, all) && Tight(r, all)
  {
    hide Formed, Single, Shift, Subnet, Hosts, Last;
    var r, all := blocks + [Single(ip)], ips + [ip];
    forall x | x in all ensures HasBlock(r, x) {
      if x in ips {
        var i :| 0 <= i < |blocks| && Subnet(blocks[i].ip) == Subnet(x);
        assert r[i] == blocks[i];
      } else {
        assert r[|blocks|].ip == x;
      }
    }
    forall i, j: nat | 0 <= i < |r| && j <= 8 ensures Hosts(r[i]) <= j <==> Agree(all, r[i].ip, j) {
      if i < |blocks| {
        AgreeElsewhere(ips, ip, r[i].ip, j);
      } else {
        assert forall x | x in ips :: HasBlock(blocks, x) && Subnet(x) != Subnet(ip);
        assert forall x | x in all && Subnet(x) == Subnet(ip) :: x == ip;
      }
    }
  }

  lemma AgreeElsewhere(ips: seq<Address>, ip: Address, base: Address, j: nat)
    ensures Agree(ips + [ip], base, j) <==>
            Agree(ips, base, j) && (Subnet(ip) == Subnet(base) ==> Shift(Last(ip), j) == Shift(Last(base), j))
  {
    hide Subnet, Shift, Last;
    assert ip in ips + [ip];
    assert forall x :: x in ips + [ip] <==> x in ips || x == ip;
  }

  lemma WidenOneEach(blocks: seq<Block>, ips: seq<Address>, ip: Address, i: nat, c: Block)
    requires OneEach(blocks, ips) && i < |blocks| && c.ip == blocks[i].ip && Subnet(ip) == Subnet(c.ip)
    ensures OneEach(blocks[i := c], ips + [ip])
  {
    hide Subnet;
    var r := blocks[i := c];
    forall x | x in ips + [ip] ensures HasBlock(r, x) {
      if x in ips {
        var k :| 0 <= k < |blocks| && Subnet(blocks[k].ip) == Subnet(x);
        assert r[k].ip == blocks[k].ip;
      } else {
        assert Subnet(r[i].ip) == Subnet(x);
      }
    }
  }

  lemma WidenTight(blocks: seq<Block>, ips: seq<Address>, ip: Address, i: nat)
    requires AllFormed(blocks) && OneEach(blocks, ips) && Tight(blocks, ips)
    requires i < |blocks| && |ip| == |blocks[i].ip| && Inflate(blocks[i], ip).Some?
    ensures Tight(blocks[i := Inflate(blocks[i], ip).value], ips + [ip])
  {
    hide Formed, Hosts, Shift, Inflate, Subnet, Agree, Last;
    InflateMeaning(blocks[i], ip);
    var r, all := blocks[i := Inflate(blocks[i], ip).value], ips + [ip];
    forall k, j: nat | 0 <= k < |r| && j <= 8 ensures Hosts(r[k]) <= j <==> Agree(all, r[k].ip, j) {
      assert k != i ==> r[k] == blocks[k];
      AgreeElsewhere(ips, ip, r[k].ip, j);
    }
  }

  // ---------- Deciding ----------

  // The number of addresses of a profile that no block contains. skip stands for the addresses
  // that are never reported: unspecified, loopback and private ones.
  function Decide(blocks: seq<Block>, profile: seq<Address>, skip: Address -> bool): nat {
    if profile == [] then 0
    else
      var n := |profile| - 1;
      Decide(blocks, profile[..n], skip) + (if skip(profile[n]) || Accepts(blocks, profile[n]) then 0 else 1)
  }

  lemma {:induction false} DecideMeaning(blocks: seq<Block>, profile: seq<Address>, skip: Address -> bool)
    ensures Decide(blocks, profile, skip) == 0 <==> forall x | x in profile :: skip(x) || Accepts(blocks, x)
  {
    hide Accepts;
    if profile != [] {
      var n := |profile| - 1;
      DecideMeaning(blocks, profile[..n], skip);
      assert profile == profile[..n] + [profile[n]];
      assert forall x :: x in profile <==> x in profile[..n] || x == profile[n];
    }
  }

  // Reports add up, one for each address that is neither exempt nor in a block.
  lemma {:induction false} ReportsAdd(blocks: seq<Block>, a: seq<Address>, b: seq<Address>, skip: Address -> bool)
    ensures Decide(blocks, a + b, skip) == Decide(blocks, a, skip) + Decide(blocks, b, skip)
    ensures forall x :: Decide(blocks, [x], skip) == if skip(x) || Accepts(blocks, x) then 0 else 1
  {
    hide Accepts;
    forall x ensures Decide(blocks, [x], skip) == if skip(x) || Accepts(blocks, x) then 0 else 1 {
      assert [x][..0] == [];
    }
    if b == [] {
      assert a + b == a;
    } else {
      var n := |b| - 1;
      assert (a + b)[..|a| + n] == a + b[..n];
      ReportsAdd(blocks, a, b[..n], skip);
    }
  }

  // ---------- Piles ----------

  // The addresses listed, by their canonical names.
  ghost function Names(list: seq<Address>): set<Address> {
    set x | x in list :: Canon(x)
  }

  // The list of IpSetPile after Add or Merge of more addresses: one of each name.
  ghost function Listed(list: seq<Address>, more: seq<Address>): seq<Address> {
    if more == [] then list
    else
      var before, x := Listed(list, more[..|more| - 1]), more[|more| - 1];
      if Canon(x) in Names(before) then before else before + [x]
  }

  ghost predicate DistinctNames(list: seq<Address>) {
    forall i, k | 0 <= i < k < |list| :: Canon(list[i]) != Canon(list[k])
  }

  // Adding keeps what was listed, in place, adds exactly the new names, and lists none twice.
  lemma {:induction false} ListedMeaning(list: seq<Address>, more: seq<Address>)
    ensures list <= Listed(list, more)
    ensures Names(Listed(list, more)) == Names(list) + Names(more)
    ensures DistinctNames(list) ==> DistinctNames(Listed(list, more))
  {
    if more == [] {
      assert Names([]) == {};
    } else {
      hide Canon, Names, DistinctNames;
      var n := |more| - 1;
      ListedMeaning(list, more[..n]);
      assert more == more[..n] + [more[n]];
      NamesAppend(more[..n], more[n]);
      NamesAppend(Listed(list, more[..n]), more[n]);
      assert list <= Listed(list, more[..n]) + [more[n]];
    }
  }

  lemma NamesAppend(list: seq<Address>, x: Address)
    ensures Names(list + [x]) == Names(list) + {Canon(x)}
    ensures DistinctNames(list) && Canon(x) !in Names(list) ==> DistinctNames(list + [x])
  {
    hide Canon;
    assert x in list + [x];
  }

  // How a pile came about.
  datatype History = Empty | Add(before: History, profile: seq<Address>) | Merge(before: History, other: History)

  ghost function PileOf(h: History): seq<Address> {
    match h
    case Empty => []
    case Add(before, profile) => Listed(PileOf(before), profile)
    case Merge(before, other) => Listed(PileOf(before), PileOf(other))
  }

  ghost predicate Sampled(h: History, x: Address) {
    match h
    case Empty => false
    case Add(before, profile) => Sampled(before, x) || x in profile
    case Merge(before, other) => Sampled(before, x) || Sampled(other, x)
  }

  lemma {:induction false} SampledIsListed(h: History, x: Address)
    requires Sampled(h, x)
    ensures Canon(x) in Names(PileOf(h))
  {
    hide Canon;
    match h
    case Add(before, profile) =>
      ListedMeaning(PileOf(before), profile);
      if Sampled(before, x) { SampledIsListed(before, x); }
    case Merge(before, other) =>
      ListedMeaning(PileOf(before), PileOf(other));
      if Sampled(before, x) { SampledIsListed(before, x); } else { SampledIsListed(other, x); }
  }

  // Which blocks contain an address depends on its canonical name alone.
  lemma SameName(blocks: seq<Block>, x: Address, y: Address)
    requires Canon(x) == Canon(y)
    ensures Accepts(blocks, x) <==> Accepts(blocks, y)
  {
    forall b | b in blocks ensures Contains(b, x) <==> Contains(b, y) {}
  }

  // Whatever went into a pile, by any mix of Add and Merge, is accepted once it is learned, and
  // what was accepted before still is: also for an address listed under its other notation.
  lemma LearnedSamplesAccepted(blocks: seq<Block>, h: History, profile: seq<Address>, skip: Address -> bool)
    requires AllFormed(blocks)
    requires forall x | x in profile :: Sampled(h, x) || Accepts(blocks, x)
    ensures Decide(Learned(blocks, PileOf(h)), profile, skip) == 0
  {
    hide Accepts, Canon, Learned, Sampled, PileOf;
    var ips := PileOf(h);
    DecideMeaning(Learned(blocks, ips), profile, skip);
    forall x | x in profile ensures Accepts(Learned(blocks, ips), x) {
      LearnSound(blocks, ips, x);
      if Sampled(h, x) {
        SampledIsListed(h, x);
        var y :| y in ips && Canon(y) == Canon(x);
        LearnSound(blocks, ips, y);
        SameName(Learned(blocks, ips), x, y);
      }
    }
  }

  // ---------- One address in two notations ----------

  // The same address: equal bytes, or four bytes and the sixteen of the same IPv4 address.
  predicate Alike(x: Address, y: Address) {
    || x == y
    || x == [0, 0, 0, 0, 0, 0, 0, 0, 0, 0, 255, 255] + y
    || y == [0, 0, 0, 0, 0, 0, 0, 0, 0, 0, 255, 255] + x
  }

  lemma CanonAlike(x: Address, y: Address)
    ensures Canon(x) == Canon(y) <==> Alike(x, y)
  {
    CanonIs(x);
    CanonIs(y);
    if |x| == 16 { assert x == x[..12] + x[12..]; }
    if |y| == 16 { assert y == y[..12] + y[12..]; }
  }

  lemma CanonIs(x: Address)
    ensures |x| == 16 && x[..12] == [0, 0, 0, 0, 0, 0, 0, 0, 0, 0, 255, 255] ==> Canon(x) == x[12..]
    ensures |x| == 4 || x[..12] != [0, 0, 0, 0, 0, 0, 0, 0, 0, 0, 255, 255] ==> Canon(x) == x
  {
  }

  // Blocks do not tell the two notations of an address apart.
  lemma NotationIrrelevant(blocks: seq<Block>, x: Address, y: Address)
    requires Alike(x, y)
    ensures Accepts(blocks, x) <==> Accepts(blocks, y)
  {
    hide Accepts, Alike, Canon;
    CanonAlike(x, y);
    SameName(blocks, x, y);
  }

  // A set that learned one address accepts that address in both notations and no other.
  lemma OneAddress(x: Address, y: Address)
    ensures Accepts(Learned([], [x]), y) <==> Alike(x, y)
  {
    hide Canon, Contains, Single, Inflate, Alike, Shift, Formed, Hosts;
    assert [x][..0] == [];
    assert Learned([], [x]) == [Single(x)];
    assert Accepts([Single(x)], y) <==> Contains(Single(x), y) by { assert Single(x) in [Single(x)]; }
    ContainsMeaning(Single(x), y);
    ShiftNone(Last(Canon(x)), Last(Canon(y)));
    SubnetLast(Canon(x), Canon(y));
    CanonAlike(x, y);
  }

  lemma SubnetLast(x: Address, y: Address)
    ensures |x| == |y| && Subnet(x) == Subnet(y) && Last(x) == Last(y) <==> x == y
  {
    assert x == Subnet(x) + [Last(x)];
    assert y == Subnet(y) + [Last(y)];
  }

  // A pile lists two addresses once exactly when they are one address in two notations.
  lemma ListedOnce(x: Address, y: Address)
    ensures Listed([], [x, y]) == if Alike(x, y) then [x] else [x, y]
  {
    hide Canon, Alike, Names;
    CanonAlike(x, y);
    assert [x, y][..1] == [x] && [x, y][1] == y;
    ListedOne(x);
    hide DistinctNames;
  }

  lemma ListedOne(x: Address)
    ensures Listed([], [x]) == [x] && Names([x]) == {Canon(x)}
  {
    hide Canon;
    assert [x][..0] == [];
    assert Names([]) == {};
    NamesAppend([], x);
    assert [] + [x] == [x];
  }

  // ---------- What is accepted, exactly ----------

  lemma {:induction false} ShiftIs(a: nat, j: nat)
    ensures Shift(a, j) == a / Pow2(j)
    decreases j
  {
    if j > 0 {
      ShiftIs(a / 2, j - 1);
      HalfDivided(a, Pow2(j - 1));
    }
  }

  // (a / 2) / p == a / (2 * p)
  lemma HalfDivided(a: nat, p: nat)
    requires p > 0
    ensures a / 2 / p == a / (2 * p)
  {
    var h, q, r := a / 2, a / 2 / p, a / 2 % p;
    assert h == p * q + r;
    assert a == 2 * h + a % 2 == (2 * p) * q + (2 * r + a % 2);
    Modulo.ModuloIs(a, 2 * p, q, 2 * r + a % 2);
  }

  // Two numbers agree but for their lowest j bits.
  predicate SharePrefix(a: Byte, b: Byte, j: nat) {
    a / Pow2(j) == b / Pow2(j)
  }

  // The addresses in the subnet of x agree with it but for the lowest j bits of the last byte.
  ghost predicate ShareAll(ips: seq<Address>, x: Address, j: nat) {
    var n := |x| - 1;
    forall y | y in ips && |y| == |x| && y[..n] == x[..n] :: SharePrefix(y[n], x[n], j)
  }

  // a shares with x whatever prefix of the last byte all addresses in the subnet of x share with it.
  ghost predicate Nearby(ips: seq<Address>, x: Address, a: Address) {
    var n := |x| - 1;
    && |a| == |x| && a[..n] == x[..n]
    && forall j: nat | j <= 8 && ShareAll(ips, x, j) :: SharePrefix(a[n], x[n], j)
  }

  // Learning addresses of one length accepts an address of that length exactly if it lies in the
  // subnet of one that was learned and shares the longest prefix of all that were learned there.
  lemma AcceptsExactly(ips: seq<Address>, a: Address)
    requires forall x | x in ips :: |x| == |a|
    ensures Accepts(Learned([], ips), a) <==> exists x | x in ips :: Nearby(ips, x, a)
  {
    hide Learned, Contains, Formed, Hosts, Shift, Nearby;
    LearnTight(ips, |a|);
    var r := Learned([], ips);
    if Accepts(r, a) {
      var b :| b in r && Contains(b, a);
      var i :| 0 <= i < |r| && r[i] == b;
      assert b.ip in ips && Formed(b);
      AcceptedByBlock(r, ips, i, b.ip, a);
    }
    if x :| x in ips && Nearby(ips, x, a) {
      assert HasBlock(r, x);
      var i :| 0 <= i < |r| && Subnet(r[i].ip) == Subnet(x);
      AcceptedByBlock(r, ips, i, x, a);
      assert r[i] in r;
    }
  }

  lemma AcceptedByBlock(r: seq<Block>, ips: seq<Address>, i: nat, x: Address, a: Address)
    requires i < |r| && AllFormed(r) && Tight(r, ips) && (forall y | y in ips :: |y| == |a|)
    requires r[i].ip in ips && x in ips && Subnet(x) == Subnet(r[i].ip)
    ensures Contains(r[i], a) <==> Nearby(ips, x, a)
  {
    hide Contains, Formed, Hosts, Shift, Nearby, Agree;
    var b := r[i];
    ContainsSameLength(b, a);
    AgreeAtHosts(ips, b.ip, Hosts(b), x);
    assert Agree(ips, b.ip, Hosts(b));
    if Contains(b, a) {
      assert Shift(Last(a), Hosts(b)) == Shift(Last(x), Hosts(b));
      forall j: nat | j <= 8 && Agree(ips, x, j) ensures Shift(Last(a), j) == Shift(Last(x), j) {
        AgreeRebased(ips, b.ip, x, j);
        ShiftMore(Last(a), Last(x), Hosts(b), j);
      }
    }
    AgreeRebased(ips, b.ip, x, Hosts(b));
    NearbyIs(ips, x, a);
  }

  lemma AgreeAtHosts(ips: seq<Address>, base: Address, j: nat, x: Address)
    requires Agree(ips, base, j) && x in ips && Subnet(x) == Subnet(base)
    ensures Shift(Last(x), j) == Shift(Last(base), j)
  {
  }

  lemma AgreeRebased(ips: seq<Address>, base: Address, x: Address, j: nat)
    requires base in ips && x in ips && Subnet(x) == Subnet(base)
    ensures Agree(ips, base, j) <==> Agree(ips, x, j)
  {
    hide Shift, Subnet, Last;
  }

  lemma NearbyIs(ips: seq<Address>, x: Address, a: Address)
    requires |a| == |x| && forall y | y in ips :: |y| == |a|
    ensures Nearby(ips, x, a) <==>
            Subnet(a) == Subnet(x)
            && forall j: nat | j <= 8 && Agree(ips, x, j) :: Shift(Last(a), j) == Shift(Last(x), j)
  {
    hide SharePrefix, Agree, ShareAll;
    forall j: nat
      ensures ShareAll(ips, x, j) <==> Agree(ips, x, j)
      ensures SharePrefix(Last(a), Last(x), j) <==> Shift(Last(a), j) == Shift(Last(x), j)
    {
      ShareAllIs(ips, x, j);
      SharePrefixIs(Last(a), Last(x), j);
    }
  }

  lemma ShareAllIs(ips: seq<Address>, x: Address, j: nat)
    requires forall y | y in ips :: |y| == |x|
    ensures ShareAll(ips, x, j) <==> Agree(ips, x, j)
  {
    hide SharePrefix, Shift;
    forall y | y in ips ensures SharePrefix(Last(y), Last(x), j) <==> Shift(Last(y), j) == Shift(Last(x), j) {
      SharePrefixIs(Last(y), Last(x), j);
    }
  }

  lemma SharePrefixIs(a: Byte, b: Byte, j: nat)
    ensures SharePrefix(a, b, j) <==> Shift(a, j) == Shift(b, j)
  {
    ShiftIs(a, j);
    ShiftIs(b, j);
  }
}
