// ipSet.go, as its methods change it in place: address blocks are structs, copied by every
// loop over them, whose mask bytes all copies share.
module IpSetObjects {
  import opened Wrappers
  import opened Bits
  import opened IpSet

  class IpSetPile {
    var list: seq<Address>
    // The names listed; absent until first needed.
    var m: Option<set<Address>>

    ghost predicate Valid()
      reads this
    {
      m.Some? ==> m.value == Names(list)
    }

    constructor (marshalled: seq<Address>)
      ensures Valid() && list == marshalled
    {
      list, m := marshalled, None;
    }

    method Populate() returns (names: set<Address>)
      requires Valid()
      ensures names == Names(list)
    {
      if m.Some? {
        return m.value;
      }
      names := {};
      for i := 0 to |list|
        invariant names == Names(list[..i])
      {
        assert list[..i + 1] == list[..i] + [list[i]];
        NamesAppend(list[..i], list[i]);
        names := names + {Canon(list[i])};
      }
      assert list[..|list|] == list;
    }

    method Absorb(more: seq<Address>)
      requires Valid()
      modifies this
      ensures Valid() && list == Listed(old(list), more)
    {
      hide Names, Canon;
      var names := Populate();
      for i := 0 to |more|
        invariant list == Listed(old(list), more[..i]) && names == Names(list)
      {
        assert more[..i + 1] == more[..i] + [more[i]];
        var name := Canon(more[i]);
        NamesAppend(list, more[i]);
        if name !in names {
          names := names + {name};
          list := list + [more[i]];
        }
      }
      assert more[..|more|] == more;
      m := Some(names);
    }

    method Add(profile: seq<Address>)
      requires Valid()
      modifies this
      ensures Valid() && list == Listed(old(list), profile)
    {
      Absorb(profile);
    }

    method Merge(other: IpSetPile)
      requires Valid()
      modifies this
      ensures Valid() && list == Listed(old(list), old(other.list))
    {
      Absorb(other.list);
    }

    method Clear()
      modifies this
      ensures Valid() && list == []
    {
      list, m := [], None;
    }
  }

  // CIDR: copying one copies the address but shares the mask.
  datatype Cidr = Cidr(ip: Address, mask: array<Byte>)

  // Returns also the address that InflateBy leaves in the struct it was called on.
  method InflateBy(cidr: Cidr, ip: Address) returns (ok: bool, own: Address)
    requires cidr.mask.Length == |cidr.ip|
    modifies cidr.mask
    ensures ok <==> old(Inflate(Net(cidr.ip, cidr.mask[..]), ip)).Some?
    ensures cidr.mask[..] == if ok then old(Inflate(Net(cidr.ip, cidr.mask[..]), ip)).value.mask
                             else old(cidr.mask[..])
    ensures Subnet(own) == Subnet(cidr.ip) && (!ok ==> own == cidr.ip)
  {
    hide Contains, Xor, And, Len, Pow2, Canon;
    own := cidr.ip;
    if Contains(Net(cidr.ip, cidr.mask[..]), ip) {
      return true, own;
    }
    if |ip| != |cidr.ip| {
      return false, own;
    }
    var last := |cidr.ip| - 1;
    for i := 0 to last
      invariant forall k | 0 <= k < i :: ip[k] == cidr.ip[k]
      invariant cidr.mask[..] == old(cidr.mask[..])
    {
      if XorByte(cidr.ip[i], ip[i]) != 0 {
        XorZero(cidr.ip[i], ip[i]);
        assert Subnet(ip)[i] != Subnet(cidr.ip)[i];
        return false, own;
      }
      XorZero(cidr.ip[i], ip[i]);
    }
    assert Subnet(ip) == Subnet(cidr.ip);
    var shared := LeadingZeros8(XorByte(cidr.ip[last], ip[last]));
    var mask := CidrMask(|cidr.ip|, 8 - shared);
    own := Masked(cidr.ip, mask);
    MaskedSubnet(cidr.ip, 8 - shared);
    AndBelow(cidr.mask[last], mask[last]);
    cidr.mask[last] := And(cidr.mask[last], mask[last]);
    ok := true;
  }

  // net.IP.Mask
  function Masked(ip: Address, mask: seq<Byte>): Address
    requires |mask| == |ip|
  {
    seq(|ip|, i requires 0 <= i < |ip| => AndByte(ip[i], mask[i]))
  }

  function AndByte(a: Byte, b: Byte): Byte {
    AndBelow(a, b);
    And(a, b)
  }

  lemma MaskedSubnet(ip: Address, h: nat)
    requires h <= 8
    ensures Subnet(Masked(ip, CidrMask(|ip|, h))) == Subnet(ip)
  {
    var masked := Masked(ip, CidrMask(|ip|, h));
    assert Pow2(8) == 256;
    forall i | 0 <= i < |ip| - 1 ensures masked[i] == ip[i] { AndOnes(ip[i], 8); }
  }

  class IpSetConfig {
    var cidrs: seq<Cidr>
    // What the addresses and masks say.
    ghost var blocks: seq<Block>

    // The masks are arrays of their own.
    ghost predicate Valid()
      reads this, set c | c in cidrs :: c.mask
    {
      && |blocks| == |cidrs|
      && (forall i | 0 <= i < |cidrs| :: cidrs[i].ip == blocks[i].ip && cidrs[i].mask[..] == blocks[i].mask)
      && (forall i, k | 0 <= i < k < |cidrs| :: cidrs[i].mask != cidrs[k].mask)
      && AllFormed(blocks)
    }

    constructor ()
      ensures Valid() && blocks == []
    {
      cidrs, blocks := [], [];
    }

    // One address of Learn. The loop works on a copy of each struct: what InflateBy does to the
    // address of the copy is lost.
    method LearnOne(ip: Address)
      requires Valid()
      modifies this, set c | c in cidrs :: c.mask
      ensures Valid() && blocks == IpSet.LearnOne(old(blocks), ip)
      ensures forall c | c in cidrs :: c in old(cidrs) || fresh(c.mask)
    {
      hide Formed, Inflate, IpSet.LearnOne, Accepts, Single;
      LearnOneSound(blocks, ip, ip);
      for k := 0 to |cidrs|
        invariant Valid() && cidrs == old(cidrs) && blocks == old(blocks)
        invariant forall i | 0 <= i < k :: Inflate(blocks[i], ip).None?
      {
        LearnOneFirst(blocks, ip, k);
        var cidr := cidrs[k];
        var ok, _ := InflateBy(cidr, ip);
        if ok {
          blocks := blocks[k := Inflate(blocks[k], ip).value];
          InflateKeepsIp(old(blocks)[k], ip);
          return;
        }
      }
      LearnOneFirst(blocks, ip, |blocks|);
      NewBlock(ip);
    }

    method NewBlock(ip: Address)
      requires Valid()
      modifies this
      ensures Valid() && blocks == old(blocks) + [Single(ip)]
      ensures forall c | c in cidrs :: c in old(cidrs) || fresh(c.mask)
    {
      hide Formed;
      var mask := new Byte[|ip|](i => 255);
      SingleMask(ip, mask[..]);
      cidrs := cidrs + [Cidr(ip, mask)];
      blocks := blocks + [Single(ip)];
    }

    method Learn(pile: IpSetPile)
      requires Valid()
      modifies this, set c | c in cidrs :: c.mask
      ensures Valid() && blocks == Learned(old(blocks), pile.list)
    {
      hide IpSet.LearnOne, Formed;
      var ips := pile.list;
      for i := 0 to |ips|
        invariant Valid() && blocks == Learned(old(blocks), ips[..i])
        invariant forall c | c in cidrs :: c in old(cidrs) || fresh(c.mask)
        invariant pile.list == ips
      {
        assert ips[..i + 1][..i] == ips[..i];
        LearnOne(ips[i]);
      }
      assert ips[..|ips|] == ips;
    }

    method Decide(profile: seq<Address>, skip: Address -> bool) returns (result: nat)
      requires Valid()
      ensures result == IpSet.Decide(blocks, profile, skip)
    {
      result := 0;
      for i := 0 to |profile|
        invariant result == IpSet.Decide(blocks, profile[..i], skip)
      {
        assert profile[..i + 1][..i] == profile[..i];
        var allowed := skip(profile[i]);
        for k := 0 to |cidrs|
          invariant allowed <==> skip(profile[i]) || exists n | 0 <= n < k :: Contains(blocks[n], profile[i])
        {
          allowed := allowed || Contains(Net(cidrs[k].ip, cidrs[k].mask[..]), profile[i]);
        }
        if !allowed {
          result := result + 1;
        }
      }
      assert profile[..|profile|] == profile;
    }
  }

  lemma InflateKeepsIp(b: Block, ip: Address)
    requires Inflate(b, ip).Some?
    ensures Inflate(b, ip).value.ip == b.ip
  {
  }

  lemma SingleMask(ip: Address, mask: seq<Byte>)
    requires |mask| == |ip| && forall i | 0 <= i < |mask| :: mask[i] == 255
    ensures Single(ip).mask == mask
  {
    assert Pow2(0) == 1;
  }
}
