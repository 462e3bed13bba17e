// v1alpha1.go: decision trees, and the canonical string by which alerts are compared.
module Decisions {

  // Reasons are in the order found; children are keyed by tag.
  datatype Decision = Decision(children: map<string, Decision>, reasons: seq<string>, result: int)

  // ---------- Sorting strings ----------

  // Go compares strings byte by byte, which for UTF-8 is the order of code points.
  predicate StringLeq(a: string, b: string) {
    a == [] || (b != [] && (a[0] < b[0] || (a[0] == b[0] && StringLeq(a[1..], b[1..]))))
  }

  lemma {:induction false} LeqTotal(a: string, b: string)
    ensures StringLeq(a, b) || StringLeq(b, a)
    ensures StringLeq(a, b) && StringLeq(b, a) ==> a == b
  {
    if a != [] && b != [] { LeqTotal(a[1..], b[1..]); }
    if a != [] && b != [] && a[0] == b[0] {
      assert a == [a[0]] + a[1..] && b == [b[0]] + b[1..];
    }
  }

  lemma {:induction false} LeqTrans(a: string, b: string, c: string)
    requires StringLeq(a, b) && StringLeq(b, c)
    ensures StringLeq(a, c)
  {
    if a != [] && b != [] && c != [] && a[0] == b[0] == c[0] { LeqTrans(a[1..], b[1..], c[1..]); }
  }

  ghost predicate Sorted(s: seq<string>) {
    forall i, j | 0 <= i < j < |s| :: StringLeq(s[i], s[j])
  }

  // Two sorted arrangements of the same strings are equal, so the outcome of sort.Strings
  // does not depend on how it sorts.
  lemma {:induction false} SortedUnique(a: seq<string>, b: seq<string>)
    requires Sorted(a) && Sorted(b) && multiset(a) == multiset(b)
    ensures a == b
    decreases |a|
  {
    hide StringLeq;
    assert |multiset(a)| == |a| && |multiset(b)| == |b|;
    if a != [] {
      LeastFirst(a, b);
      LeastFirst(b, a);
      LeqTotal(a[0], b[0]);
      WithoutFirst(a);
      WithoutFirst(b);
      SortedUnique(a[1..], b[1..]);
      assert a == [a[0]] + a[1..] && b == [b[0]] + b[1..];
    }
  }

  lemma LeastFirst(a: seq<string>, b: seq<string>)
    requires Sorted(a) && a != [] && b != [] && multiset(a) == multiset(b)
    ensures StringLeq(a[0], b[0])
  {
    hide StringLeq;
    assert b[0] in multiset(a);
    var j :| 0 <= j < |a| && a[j] == b[0];
    LeqTotal(a[0], a[0]);
  }

  lemma WithoutFirst(a: seq<string>)
    requires a != []
    ensures multiset(a[1..]) == multiset(a) - multiset{a[0]}
    ensures Sorted(a) ==> Sorted(a[1..])
  {
    assert a == [a[0]] + a[1..];
  }

  function Insert(x: string, s: seq<string>): seq<string> {
    if s == [] then [x]
    else if StringLeq(x, s[0]) then [x] + s
    else [s[0]] + Insert(x, s[1..])
  }

  function Sort(s: seq<string>): seq<string> {
    if s == [] then [] else Insert(s[0], Sort(s[1..]))
  }

  lemma {:induction false} InsertOk(x: string, s: seq<string>)
    requires Sorted(s)
    ensures Sorted(Insert(x, s)) && multiset(Insert(x, s)) == multiset(s) + multiset{x}
  {
    hide StringLeq, Sorted;
    if s == [] {
      SortedOne(x);
    } else if StringLeq(x, s[0]) {
      InsertFirst(x, s);
    } else {
      LeqTotal(x, s[0]);
      WithoutFirst(s);
      InsertOk(x, s[1..]);
      InsertLater(x, s, Insert(x, s[1..]));
    }
  }

  lemma SortedOne(x: string)
    ensures Sorted([x])
  {
  }

  lemma InsertFirst(x: string, s: seq<string>)
    requires Sorted(s) && s != [] && StringLeq(x, s[0])
    ensures Sorted([x] + s)
  {
    hide StringLeq;
    forall i | 0 <= i < |s| ensures StringLeq(x, s[i]) {
      if i > 0 { LeqTrans(x, s[0], s[i]); }
    }
  }

  lemma InsertLater(x: string, s: seq<string>, r: seq<string>)
    requires Sorted(s) && s != [] && StringLeq(s[0], x)
    requires Sorted(r) && multiset(r) == multiset(s[1..]) + multiset{x}
    ensures Sorted([s[0]] + r) && multiset([s[0]] + r) == multiset(s) + multiset{x}
  {
    hide StringLeq;
    assert s == [s[0]] + s[1..];
    forall i | 0 <= i < |r| ensures StringLeq(s[0], r[i]) {
      assert r[i] in multiset(r);
      if r[i] != x {
        assert r[i] in multiset(s[1..]);
        var k :| 0 <= k < |s[1..]| && s[1..][k] == r[i];
        assert s[k + 1] == r[i];
      }
    }
  }

  lemma {:induction false} SortOk(s: seq<string>)
    ensures Sorted(Sort(s)) && multiset(Sort(s)) == multiset(s)
  {
    if s != [] {
      SortOk(s[1..]);
      InsertOk(s[0], Sort(s[1..]));
      assert s == [s[0]] + s[1..];
    }
  }

  lemma SortSame(a: seq<string>, b: seq<string>)
    requires multiset(a) == multiset(b)
    ensures Sort(a) == Sort(b)
  {
    SortOk(a);
    SortOk(b);
    SortedUnique(Sort(a), Sort(b));
  }

  // ---------- The canonical string ----------

  // The keys of a map as some sequence without repetition.
  ghost function Listing(keys: set<string>): (s: seq<string>)
    ensures multiset(s) == multiset(keys)
  {
    if keys == {} then []
    else
      var k :| k in keys;
      assert multiset(keys) == multiset(keys - {k}) + multiset{k};
      [k] + Listing(keys - {k})
  }

  ghost function SortedKeys(keys: set<string>): (s: seq<string>)
    ensures forall k :: k in s ==> k in keys
  {
    SortOk(Listing(keys));
    assert forall k :: k in Sort(Listing(keys)) ==> k in multiset(Sort(Listing(keys)));
    Sort(Listing(keys))
  }

  function JoinReasons(reasons: seq<string>): string {
    if reasons == [] then "" else reasons[0] + "," + JoinReasons(reasons[1..])
  }

  // SortedSpillOut
  ghost function Spill(d: Decision): string
    decreases d, 1, 0
  {
    "[" + SpillChildren(d, SortedKeys(d.children.Keys)) + JoinReasons(Sort(d.reasons)) + "]"
  }

  ghost function SpillChildren(d: Decision, tags: seq<string>): string
    requires forall t | t in tags :: t in d.children
    decreases d, 0, |tags|
  {
    if tags == [] then ""
    else tags[0] + ":" + Spill(d.children[tags[0]]) + "," + SpillChildren(d, tags[1..])
  }

  // SortedString
  ghost function SortedString(d: Decision, tag: string): string {
    if d.result > 0 then tag + Spill(d) else ""
  }

  // Trees that differ only in the order of their reasons and in their results. (A map has no order.)
  ghost predicate Alike(d: Decision, e: Decision)
    decreases d
  {
    && multiset(d.reasons) == multiset(e.reasons)
    && d.children.Keys == e.children.Keys
    && forall t | t in d.children :: Alike(d.children[t], e.children[t])
  }

  // Trees that differ only in the order of their reasons.
  ghost predicate Equivalent(d: Decision, e: Decision)
    decreases d
  {
    && d.result == e.result
    && multiset(d.reasons) == multiset(e.reasons)
    && d.children.Keys == e.children.Keys
    && forall t | t in d.children :: Equivalent(d.children[t], e.children[t])
  }

  lemma {:induction false} EquivalentAlike(d: Decision, e: Decision)
    requires Equivalent(d, e)
    ensures Alike(d, e)
    decreases d
  {
    forall t | t in d.children ensures Alike(d.children[t], e.children[t]) {
      EquivalentAlike(d.children[t], e.children[t]);
    }
  }

  // Trees that are alike are spelled out alike.
  lemma {:induction false} SpillCanonical(d: Decision, e: Decision)
    requires Alike(d, e)
    ensures Spill(d) == Spill(e)
    decreases d, 1, 0
  {
    SortSame(d.reasons, e.reasons);
    SpillChildrenCanonical(d, e, SortedKeys(d.children.Keys));
  }

  lemma {:induction false} SpillChildrenCanonical(d: Decision, e: Decision, tags: seq<string>)
    requires Alike(d, e) && (forall t | t in tags :: t in d.children)
    ensures SpillChildren(d, tags) == SpillChildren(e, tags)
    decreases d, 0, |tags|
  {
    if tags != [] {
      SpillCanonical(d.children[tags[0]], e.children[tags[0]]);
      SpillChildrenCanonical(d, e, tags[1..]);
    }
  }

  lemma CanonicalString(d: Decision, e: Decision, tag: string)
    requires Equivalent(d, e)
    ensures SortedString(d, tag) == SortedString(e, tag)
  {
    EquivalentAlike(d, e);
    SpillCanonical(d, e);
  }

  // ---------- Reading the string back ----------

  const DELIMITERS := {'[', ']', ','}

  predicate PlainText(s: string) {
    forall c | c in s :: c !in DELIMITERS
  }

  // No tag or reason in the tree contains a delimiter. (A colon does no harm.)
  ghost predicate Plain(d: Decision)
    decreases d
  {
    && (forall r | r in d.reasons :: PlainText(r))
    && forall t | t in d.children :: PlainText(t) && Plain(d.children[t])
  }

  // A text ends at the first delimiter.
  lemma FirstDelimiter(a: string, p: char, u: string, b: string, q: char, v: string)
    requires PlainText(a) && PlainText(b) && p in DELIMITERS && q in DELIMITERS
    requires a + [p] + u == b + [q] + v
    ensures a == b && p == q && u == v
  {
    var s, t := a + [p] + u, b + [q] + v;
    assert s[|a|] == p && t[|b|] == q;
    forall k | 0 <= k < |a| ensures s[k] !in DELIMITERS { assert s[k] == a[k]; }
    forall k | 0 <= k < |b| ensures t[k] !in DELIMITERS { assert t[k] == b[k]; }
    assert |a| == |b|;
    assert a == s[..|a|] && b == t[..|b|];
    assert u == s[|a| + 1..] && v == t[|b| + 1..];
  }

  // What is left to read of a tree: some children, some reasons, and what follows the tree.
  ghost function Rest(d: Decision, tags: seq<string>, reasons: seq<string>, x: string): string
    requires forall t | t in tags :: t in d.children
  {
    SpillChildren(d, tags) + JoinReasons(reasons) + "]" + x
  }

  // How the rest begins: a text, its delimiter, and what follows.
  datatype Beginning = Beginning(text: string, delimiter: char, more: string)

  ghost function Begin(d: Decision, tags: seq<string>, reasons: seq<string>, x: string): Beginning
    requires forall t | t in tags :: t in d.children
  {
    if tags != [] then
      Beginning(tags[0] + ":", '[', Spill(d.children[tags[0]])[1..] + "," + Rest(d, tags[1..], reasons, x))
    else if reasons != [] then Beginning(reasons[0], ',', Rest(d, [], reasons[1..], x))
    else Beginning("", ']', x)
  }

  lemma BeginIs(d: Decision, tags: seq<string>, reasons: seq<string>, x: string)
    requires forall t | t in tags :: t in d.children
    ensures var b := Begin(d, tags, reasons, x); Rest(d, tags, reasons, x) == b.text + [b.delimiter] + b.more
  {
    hide Spill;
    if tags != [] {
      SpillOpens(d.children[tags[0]]);
      Regroup(tags[0], Spill(d.children[tags[0]]), SpillChildren(d, tags[1..]), JoinReasons(reasons), x);
    } else if reasons != [] {
      assert reasons[0] + "," + JoinReasons(reasons[1..]) + "]" + x
          == reasons[0] + "," + ("" + JoinReasons(reasons[1..]) + "]" + x);
    }
  }

  lemma Regroup(tag: string, child: string, others: string, reasons: string, x: string)
    requires child != [] && child[0] == '['
    ensures (tag + ":" + child + "," + others) + reasons + "]" + x
         == (tag + ":") + ['['] + (child[1..] + "," + (others + reasons + "]" + x))
  {
    assert child == ['['] + child[1..];
  }

  lemma BeginPlain(d: Decision, tags: seq<string>, reasons: seq<string>, x: string)
    requires (forall t | t in tags :: t in d.children && PlainText(t)) && (forall r | r in reasons :: PlainText(r))
    ensures var b := Begin(d, tags, reasons, x); PlainText(b.text) && b.delimiter in DELIMITERS
  {
    hide Spill, Rest;
    if tags != [] {
      assert tags[0] in tags;
    } else if reasons != [] {
      assert reasons[0] in reasons;
    }
  }

  lemma SpillOpens(d: Decision)
    ensures |Spill(d)| > 0 && Spill(d)[0] == '['
  {
    hide SpillChildren, JoinReasons, SortedKeys, Sort;
  }

  // Two rests that are equal begin with the same item, and go on equally after it.
  lemma ItemApart(d: Decision, tags: seq<string>, reasons: seq<string>, x: string,
                  e: Decision, tags': seq<string>, reasons': seq<string>, y: string)
    requires (forall t | t in tags :: t in d.children && PlainText(t)) && (forall r | r in reasons :: PlainText(r))
    requires (forall t | t in tags' :: t in e.children && PlainText(t)) && (forall r | r in reasons' :: PlainText(r))
    requires Rest(d, tags, reasons, x) == Rest(e, tags', reasons', y)
    ensures tags == [] <==> tags' == []
    ensures tags != [] ==> tags[0] == tags'[0]
    ensures tags != [] ==> (
      Spill(d.children[tags[0]]) + ("," + Rest(d, tags[1..], reasons, x))
      == Spill(e.children[tags'[0]]) + ("," + Rest(e, tags'[1..], reasons', y)))
    ensures tags == [] ==> (reasons == [] <==> reasons' == [])
    ensures tags == reasons == [] ==> x == y
    ensures tags == [] && reasons != [] ==>
      reasons[0] == reasons'[0] && Rest(d, [], reasons[1..], x) == Rest(e, [], reasons'[1..], y)
  {
    hide Rest, Spill;
    BeginIs(d, tags, reasons, x);
    BeginIs(e, tags', reasons', y);
    var b, c := Begin(d, tags, reasons, x), Begin(e, tags', reasons', y);
    BeginPlain(d, tags, reasons, x);
    BeginPlain(e, tags', reasons', y);
    FirstDelimiter(b.text, b.delimiter, b.more, c.text, c.delimiter, c.more);
    if tags != [] {
      assert b.text[..|b.text| - 1] == tags[0] && c.text[..|c.text| - 1] == tags'[0];
      ChildBegins(d, tags, reasons, x);
      ChildBegins(e, tags', reasons', y);
    }
  }

  lemma ChildBegins(d: Decision, tags: seq<string>, reasons: seq<string>, x: string)
    requires tags != [] && forall t | t in tags :: t in d.children
    ensures Spill(d.children[tags[0]]) + ("," + Rest(d, tags[1..], reasons, x))
         == ['['] + Begin(d, tags, reasons, x).more
  {
    hide Rest, Spill;
    SpillOpens(d.children[tags[0]]);
    var c := Spill(d.children[tags[0]]);
    assert c == ['['] + c[1..];
  }

  // The items of a tree can be read one by one, and so can what follows it.
  lemma {:induction false} RestApart(d: Decision, tags: seq<string>, reasons: seq<string>, x: string,
                                     e: Decision, tags': seq<string>, reasons': seq<string>, y: string)
    requires (forall t | t in tags :: t in d.children && PlainText(t) && Plain(d.children[t]))
    requires (forall t | t in tags' :: t in e.children && PlainText(t) && Plain(e.children[t]))
    requires (forall r | r in reasons :: PlainText(r)) && (forall r | r in reasons' :: PlainText(r))
    requires Rest(d, tags, reasons, x) == Rest(e, tags', reasons', y)
    ensures tags == tags' && reasons == reasons' && x == y
    ensures forall t | t in tags :: Alike(d.children[t], e.children[t])
    decreases d, 0, |tags| + |reasons|
  {
    hide Rest, Spill, Alike, Plain, PlainText;
    ItemApart(d, tags, reasons, x, e, tags', reasons', y);
    if tags != [] {
      var u, v := Rest(d, tags[1..], reasons, x), Rest(e, tags'[1..], reasons', y);
      SpillApart(d.children[tags[0]], "," + u, e.children[tags[0]], "," + v);
      assert ("," + u)[1..] == u && ("," + v)[1..] == v;
      RestApart(d, tags[1..], reasons, x, e, tags'[1..], reasons', y);
      assert tags == [tags[0]] + tags[1..] && tags' == [tags'[0]] + tags'[1..];
    } else if reasons != [] {
      RestApart(d, [], reasons[1..], x, e, [], reasons'[1..], y);
      assert reasons == [reasons[0]] + reasons[1..] && reasons' == [reasons'[0]] + reasons'[1..];
    }
  }

  lemma {:induction false} SpillApart(d: Decision, x: string, e: Decision, y: string)
    requires Plain(d) && Plain(e) && Spill(d) + x == Spill(e) + y
    ensures Alike(d, e) && x == y
    decreases d, 1, 0
  {
    hide Spill, Rest, Sort, SortedKeys, PlainText;
    var tags, tags' := SortedKeys(d.children.Keys), SortedKeys(e.children.Keys);
    var reasons, reasons' := Sort(d.reasons), Sort(e.reasons);
    SortedAre(d);
    SortedAre(e);
    RestEqual(d, x, e, y);
    RestApart(d, tags, reasons, x, e, tags', reasons', y);
    assert d.children.Keys == e.children.Keys;
  }

  lemma RestEqual(d: Decision, x: string, e: Decision, y: string)
    requires Spill(d) + x == Spill(e) + y
    ensures Rest(d, SortedKeys(d.children.Keys), Sort(d.reasons), x)
         == Rest(e, SortedKeys(e.children.Keys), Sort(e.reasons), y)
  {
    RestOfTree(d, x);
    RestOfTree(e, y);
  }

  lemma RestOfTree(d: Decision, x: string)
    ensures Rest(d, SortedKeys(d.children.Keys), Sort(d.reasons), x) == (Spill(d) + x)[1..]
  {
    hide SpillChildren, JoinReasons, Sort, SortedKeys;
    var a, b := SpillChildren(d, SortedKeys(d.children.Keys)), JoinReasons(Sort(d.reasons));
    assert Spill(d) + x == "[" + (a + b + "]" + x);
  }

  lemma SortedAre(d: Decision)
    ensures multiset(Sort(d.reasons)) == multiset(d.reasons)
    ensures forall r :: r in Sort(d.reasons) <==> r in d.reasons
    ensures forall t :: t in SortedKeys(d.children.Keys) <==> t in d.children
  {
    SortOk(d.reasons);
    SortOk(Listing(d.children.Keys));
    assert forall r :: r in Sort(d.reasons) <==> r in multiset(Sort(d.reasons));
    assert forall r :: r in d.reasons <==> r in multiset(d.reasons);
    assert forall t :: t in SortedKeys(d.children.Keys) <==> t in multiset(SortedKeys(d.children.Keys));
  }

  // When no tag or reason contains a bracket or a comma, two trees have the same string exactly
  // when they are alike, and alerts the same string exactly when their levels agree as well.
  lemma StringTellsApart(d: Decision, level: string, e: Decision, level': string)
    requires Plain(d) && Plain(e) && PlainText(level) && PlainText(level') && d.result > 0 && e.result > 0
    ensures Spill(d) == Spill(e) <==> Alike(d, e)
    ensures SortedString(d, level) == SortedString(e, level') <==> level == level' && Alike(d, e)
  {
    if Alike(d, e) { SpillCanonical(d, e); }
    hide Spill, Alike, Plain, PlainText;
    SpillOpens(d);
    SpillOpens(e);
    if Spill(d) == Spill(e) {
      assert Spill(d) + [] == Spill(e) + [];
      SpillApart(d, [], e, []);
    }
    if SortedString(d, level) == SortedString(e, level') {
      LevelApart(level, Spill(d), level', Spill(e));
    }
  }

  lemma LevelApart(a: string, s: string, b: string, t: string)
    requires PlainText(a) && PlainText(b) && s != [] && s[0] == '[' && t != [] && t[0] == '[' && a + s == b + t
    ensures a == b && s == t
  {
    assert s == ['['] + s[1..] && t == ['['] + t[1..];
    assert a + ['['] + s[1..] == a + s && b + ['['] + t[1..] == b + t;
    FirstDelimiter(a, '[', s[1..], b, '[', t[1..]);
  }

  // ---------- The result ----------

  ghost function Total(children: map<string, Decision>, keys: set<string>): int
    requires keys <= children.Keys
  {
    if keys == {} then 0
    else
      var k :| k in keys;
      children[k].result + Total(children, keys - {k})
  }

  // The result counts the reasons of the whole tree.
  ghost predicate Counted(d: Decision)
    decreases d
  {
    && d.result == |d.reasons| + Total(d.children, d.children.Keys)
    && forall t | t in d.children :: Counted(d.children[t])
  }

  lemma {:induction false} TotalSame(a: map<string, Decision>, b: map<string, Decision>, keys: set<string>)
    requires keys <= a.Keys && keys <= b.Keys && forall k | k in keys :: a[k].result == b[k].result
    ensures Total(a, keys) == Total(b, keys)
  {
    if keys != {} {
      var k :| k in keys && Total(a, keys) == a[k].result + Total(a, keys - {k});
      TotalWithout(b, keys, k);
      TotalSame(a, b, keys - {k});
    }
  }

  lemma {:induction false} TotalWithout(children: map<string, Decision>, keys: set<string>, k: string)
    requires keys <= children.Keys && k in keys
    ensures Total(children, keys) == children[k].result + Total(children, keys - {k})
  {
    var l :| l in keys && Total(children, keys) == children[l].result + Total(children, keys - {l});
    if l != k {
      TotalWithout(children, keys - {l}, k);
      TotalWithout(children, keys - {k}, l);
      assert keys - {l} - {k} == keys - {k} - {l};
    }
  }

  // Between such trees the string tells everything apart.
  lemma {:induction false} CountedAlike(d: Decision, e: Decision)
    requires Alike(d, e) && Counted(d) && Counted(e)
    ensures Equivalent(d, e)
    decreases d
  {
    forall t | t in d.children ensures Equivalent(d.children[t], e.children[t]) {
      CountedAlike(d.children[t], e.children[t]);
    }
    TotalSame(d.children, e.children, d.children.Keys);
    assert |multiset(d.reasons)| == |d.reasons| && |multiset(e.reasons)| == |e.reasons|;
  }

  lemma StringIsExact(d: Decision, e: Decision, level: string)
    requires Plain(d) && Plain(e) && PlainText(level) && d.result > 0 && e.result > 0 && Counted(d) && Counted(e)
    ensures SortedString(d, level) == SortedString(e, level) <==> Equivalent(d, e)
  {
    hide SortedString, Plain, Alike, Equivalent, Counted;
    StringTellsApart(d, level, e, level);
    if Alike(d, e) { CountedAlike(d, e); }
    if Equivalent(d, e) { EquivalentAlike(d, e); }
  }

  // ---------- What the string looks like ----------

  // a comes first exactly if it is the beginning of b, or its character is the smaller one where
  // the two first differ.
  lemma {:induction false} LeqMeaning(a: string, b: string)
    ensures StringLeq(a, b) <==> a <= b || exists k :: SmallerAt(a, b, k)
  {
    if a != [] && b != [] && a[0] == b[0] {
      var c, d := a[1..], b[1..];
      assert a == [a[0]] + c && b == [a[0]] + d;
      LeqMeaning(c, d);
      assert a <= b <==> c <= d;
      if k: nat :| SmallerAt(c, d, k) {
        assert a[..k + 1] == [a[0]] + c[..k] && b[..k + 1] == [a[0]] + d[..k];
        assert SmallerAt(a, b, k + 1);
      }
      if k: nat :| SmallerAt(a, b, k) {
        assert c[..k - 1] == a[..k][1..] && d[..k - 1] == b[..k][1..];
        assert SmallerAt(c, d, k - 1);
      }
    } else if a != [] && b != [] && a[0] < b[0] {
      assert SmallerAt(a, b, 0);
    }
  }

  predicate SmallerAt(a: string, b: string, k: nat) {
    k < |a| && k < |b| && a[..k] == b[..k] && a[k] < b[k]
  }

  // Texts as they stand in a list: each followed by a comma.
  lemma {:induction false} JoinAppend(a: seq<string>, b: seq<string>)
    ensures JoinReasons(a + b) == JoinReasons(a) + JoinReasons(b)
    ensures forall x :: JoinReasons([x]) == x + ","
    decreases |a|
  {
    forall x ensures JoinReasons([x]) == x + "," {
      assert [x][1..] == [] && JoinReasons([]) == "";
    }
    if a == [] {
      assert a + b == b;
    } else {
      assert (a + b)[1..] == a[1..] + b;
      JoinAppend(a[1..], b);
    }
  }

  lemma {:induction false} ChildrenJoined(d: Decision, tags: seq<string>, parts: seq<string>)
    requires (forall t | t in tags :: t in d.children) && |parts| == |tags|
    requires forall i | 0 <= i < |tags| :: parts[i] == tags[i] + ":" + Spill(d.children[tags[i]])
    ensures SpillChildren(d, tags) == JoinReasons(parts)
    decreases |tags|
  {
    hide Spill;
    if tags != [] {
      ChildrenJoined(d, tags[1..], parts[1..]);
    }
  }

  // The string of a tree lists in brackets, each with a comma behind it, first the children with
  // their tags, in the order of the tags, and then the reasons in theirs.
  lemma SpillIs(d: Decision, tags: seq<string>, reasons: seq<string>, parts: seq<string>)
    requires Sorted(tags) && multiset(tags) == multiset(d.children.Keys)
    requires Sorted(reasons) && multiset(reasons) == multiset(d.reasons)
    requires |parts| == |tags| && forall t | t in tags :: t in d.children
    requires forall i | 0 <= i < |tags| :: parts[i] == tags[i] + ":" + Spill(d.children[tags[i]])
    ensures Spill(d) == "[" + JoinReasons(parts + reasons) + "]"
  {
    hide Sorted, JoinReasons, StringLeq;
    SortOk(Listing(d.children.Keys));
    SortedUnique(SortedKeys(d.children.Keys), tags);
    SortOk(d.reasons);
    SortedUnique(Sort(d.reasons), reasons);
    ChildrenJoined(d, tags, parts);
    JoinAppend(parts, reasons);
  }

  // A tree without a positive result has no string; any other starts with its level and a bracket.
  lemma EmptyString(d: Decision, level: string)
    ensures SortedString(d, level) == "" <==> d.result <= 0
    ensures d.result > 0 ==> SortedString(d, level) == level + Spill(d)
  {
    SpillOpens(d);
  }
}
