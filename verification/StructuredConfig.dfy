// structuredProfiler.go: the StructuredPile and StructuredConfig objects, whose fields are
// overwritten by Add, Merge and Learn.
module StructuredObjects {
  import opened Wrappers
  import opened Structured
  import opened KeyValConfigs
  import KV = KeyVal
  import Scanner
  import SV = SimpleVal

  class StructuredPile {
    var kind: Kind
    var val: Option<SV.Pile>
    var kv: KV.Pile

    function View(): Pile
      reads this
    {
      Pile(kind, val, kv)
    }

    constructor ()
      ensures View() == EMPTY_PILE
    {
      kind, val, kv := Empty, None, map[];
    }

    method Clear()
      modifies this
      ensures View() == EMPTY_PILE
    {
      kind, val, kv := Empty, None, map[];
    }

    method Add(profile: Profile)
      requires PileOk(View()) && ProfileOk(profile)
      modifies this
      ensures View() == Added(old(View()), profile)
    {
      hide SV.Added, KV.Added;
      if kind.Empty? {
        match profile.kind {
          case Object => kind := Object;
          case Array => kind, val := profile.kind, Some(SV.EMPTY_PILE);
          case Boolean => kind, val := profile.kind, Some(SV.EMPTY_PILE);
          case Number => kind, val := profile.kind, Some(SV.EMPTY_PILE);
          case String => kind, val := profile.kind, Some(SV.EMPTY_PILE);
          case Empty => return;
          case Multi =>
        }
      }
      if kind != profile.kind {
        kind := Multi;
        return;
      }
      if profile.kind.Object? {
        kv := AddToPile(kv, profile.kv);
      } else if profile.kind.Array? {
        var pile := AddVals(val.value, profile.vals);
        val := Some(pile);
      } else if Scalar(profile.kind) {
        AddOneItem(val.value, profile.vals[0]);
        val := Some(SV.Added(val.value, profile.vals[0]));
      }
    }

    static method AddVals(pile0: SV.Pile, vals: seq<Scanner.Profile>) returns (pile: SV.Pile)
      ensures pile == AddItems(pile0, vals)
    {
      hide SV.Added;
      pile := pile0;
      for i := 0 to |vals|
        invariant pile == AddItems(pile0, vals[..i])
      {
        assert vals[..i + 1][..i] == vals[..i];
        pile := SV.Added(pile, vals[i]);
      }
      assert vals[..|vals|] == vals;
    }

    static lemma AddOneItem(pile: SV.Pile, item: Scanner.Profile)
      ensures AddItems(pile, [item]) == SV.Added(pile, item)
    {
      hide SV.Added;
      assert [item][..0] == [];
      assert AddItems(pile, []) == pile;
    }

    method Merge(other: StructuredPile)
      requires PileOk(View()) && PileOk(other.View())
      modifies this
      ensures View() == Merged(old(View()), old(other.View()))
    {
      hide SV.Merged, KV.Merged;
      if kind.Empty? {
        kind := other.kind;
        if Simple(other.kind) { val := Some(SV.EMPTY_PILE); }
      }
      if kind != other.kind {
        kind := Multi;
        return;
      }
      if kind.Object? {
        kv := MergeIntoPile(kv, other.kv);
      } else if Simple(kind) {
        val := Some(SV.Merged(val.value, other.val.value));
      }
    }
  }

  class StructuredConfig {
    var kind: Kind
    var val: SV.SimpleValConfig?
    const kv: KeyValConfig

    ghost function Repr(): set<object>
      reads this, kv
    {
      kv.Rules() + {kv, kv.valScores} + (if val == null then {} else {val})
    }

    ghost function View(): Config
      reads this, Repr()
    {
      Config(kind, ViewOf(val), kv.View())
    }

    ghost predicate Valid()
      reads this, Repr()
    {
      kv.Valid() && (val != null ==> val !in kv.Rules()) && (Simple(kind) ==> val != null)
    }

    constructor ()
      ensures Valid() && fresh(Repr()) && View() == Config(Empty, None, KV.EMPTY)
    {
      kind, val := Empty, null;
      kv := new KeyValConfig();
    }

    // A config of the empty kind takes over the kind of the first pile it learns.
    method Adopt(k: Kind)
      requires Valid() && kind.Empty?
      modifies this
      ensures Valid() && (val == old(val) || val == null || fresh(val))
      ensures View() ==
        if k.Object? then Config(Object, None, old(View()).kv)
        else if Simple(k) then Config(k, Some(SV.EMPTY_CONFIG), old(View()).kv)
        else Config(k, old(View()).val, old(View()).kv)
    {
      hide KV.TableOk;
      if Simple(k) {
        val := new SV.SimpleValConfig();
      } else if k.Object? {
        val := null;
      }
      kind := k;
    }

    method LearnVal(pile: SV.Pile)
      requires Valid() && val != null
      modifies val
      ensures Valid()
      ensures View() == old(View()).(val := Some(SV.Learned(old(val.View()), pile)))
    {
      hide SV.Learned, KV.TableOk;
      val.Learn(pile);
    }

    method LearnKv(pile: KV.Pile) returns (ghost order: seq<string>)
      requires Valid()
      modifies kv, kv.valScores, kv.Rules()
      ensures Valid() && fresh(kv.Rules() - old(kv.Rules()))
      ensures KV.IsOrder(order, pile.Keys)
      ensures View() == old(View()).(kv := KV.LearnOver(old(kv.View()), pile, order))
    {
      hide KV.LearnOver, KV.TableOk;
      order := kv.Learn(pile);
    }

    method Learn(pile: Pile) returns (ghost order: seq<string>)
      requires Valid() && PileOk(pile)
      modifies this, Repr()
      ensures Valid() && fresh(Repr() - old(Repr()))
      ensures forall k | k in order :: k in pile.kv
      ensures pile.kind.Object? && (old(kind).Empty? || old(kind).Object?) ==> KV.IsOrder(order, pile.kv.Keys)
      ensures View() == Learned(old(View()), pile, order)
    {
      hide SV.Learned, KV.LearnOver, KV.TableOk, KeyValConfig.Valid, KeyValConfig.View;
      order := [];
      if kind.Empty? {
        Adopt(pile.kind);
      }
      if kind != pile.kind {
        kind := Multi;
        return;
      }
      if kind.Object? {
        order := LearnKv(pile.kv);
      } else if Simple(kind) {
        LearnVal(pile.val.value);
      }
    }

    // The result is the number of rules broken; zero stands for a nil decision.
    method Decide(profile: Profile) returns (result: nat)
      requires Valid() && ProfileOk(profile)
      ensures result == 0 <==> Accepts(View(), profile)
    {
      hide SV.Accepts, KV.Accepts;
      result := 0;
      if kind != profile.kind {
        result := if kind.Multi? then 0 else 1;
      } else if kind.Object? {
        result := kv.Decide(profile.kv);
      } else if kind.Array? {
        for i := 0 to |profile.vals|
          invariant result == 0 <==> forall v | v in profile.vals[..i] :: SV.Accepts(val.View(), v)
        {
          var child := val.Decide(profile.vals[i]);
          result := result + child;
          assert profile.vals[..i + 1] == profile.vals[..i] + [profile.vals[i]];
        }
        assert profile.vals[..|profile.vals|] == profile.vals;
      } else if Scalar(kind) {
        result := val.Decide(profile.vals[0]);
      }
    }
  }
}
