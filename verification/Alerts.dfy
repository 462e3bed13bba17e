// v1alpha1.go and client.go: building decisions, writing their canonical string, and the
// gate's list of alerts, which that string keeps free of duplicates.
module Alerts {
  import opened Wrappers
  import opened Decisions

  // ---------- Building a decision ----------

  const NO_PROBLEM := Decision(map[], [], 0)

  function OrNew(current: Option<Decision>): Decision {
    if current.None? then NO_PROBLEM else current.value
  }

  function DecideInner(current: Option<Decision>, result: int, reason: string): Option<Decision> {
    var d := OrNew(current);
    Some(d.(reasons := d.reasons + [reason], result := d.result + result))
  }

  function DecideChild(current: Option<Decision>, child: Option<Decision>, tag: string): Option<Decision> {
    if child.None? then current
    else
      var d := OrNew(current);
      Some(d.(children := d.children[tag := child.value], result := d.result + child.value.result))
  }

  // One problem reported to a decision: a reason, or the outcome of a part.
  datatype Problem = Reason(result: int, text: string) | Part(child: Option<Decision>, tag: string)

  function DecideAll(problems: seq<Problem>): Option<Decision> {
    if problems == [] then None
    else
      var before, p := DecideAll(problems[..|problems| - 1]), problems[|problems| - 1];
      match p
      case Reason(result, text) => DecideInner(before, result, text)
      case Part(child, tag) => DecideChild(before, child, tag)
  }

  function Weight(problems: seq<Problem>): int {
    if problems == [] then 0
    else
      var p := problems[|problems| - 1];
      Weight(problems[..|problems| - 1])
      + match p
        case Reason(result, text) => result
        case Part(child, tag) => if child.None? then 0 else child.value.result
  }

  // The result is the sum over everything reported, even when tags collide; the decision is
  // nil exactly when nothing was reported.
  lemma {:induction false} ResultIsSum(problems: seq<Problem>)
    ensures DecideAll(problems).None? <==> forall p | p in problems :: p.Part? && p.child.None?
    ensures OrNew(DecideAll(problems)).result == Weight(problems)
  {
    if problems != [] {
      var n := |problems| - 1;
      ResultIsSum(problems[..n]);
      assert problems == problems[..n] + [problems[n]];
      assert problems[n] in problems;
      assert forall p | p in problems :: p in problems[..n] || p == problems[n];
    }
  }

  // The texts of the reasons, in the order reported.
  function Texts(problems: seq<Problem>): seq<string> {
    if problems == [] then []
    else
      var p := problems[|problems| - 1];
      Texts(problems[..|problems| - 1]) + if p.Reason? then [p.text] else []
  }

  // The last part that found something under the tag.
  function LastPart(problems: seq<Problem>, tag: string): Option<Decision> {
    if problems == [] then None
    else
      var p := problems[|problems| - 1];
      if p.Part? && p.child.Some? && p.tag == tag then p.child else LastPart(problems[..|problems| - 1], tag)
  }

  // The decision holds all reasons in order, and under each tag what was last found there.
  lemma {:induction false} HoldsProblems(problems: seq<Problem>, tag: string)
    ensures var d := OrNew(DecideAll(problems));
      && d.reasons == Texts(problems)
      && LastPart(problems, tag) == if tag in d.children then Some(d.children[tag]) else None
  {
    if problems != [] { HoldsProblems(problems[..|problems| - 1], tag); }
  }

  ghost predicate Tags(problems: seq<Problem>, tag: string) {
    exists i | 0 <= i < |problems| :: problems[i].Part? && problems[i].child.Some? && problems[i].tag == tag
  }

  // Every reason weighs one, as in the code, and no two parts that found problems share a tag.
  ghost predicate Distinguished(problems: seq<Problem>) {
    && (forall p | p in problems && p.Reason? :: p.result == 1)
    && (forall p | p in problems && p.Part? && p.child.Some? :: Counted(p.child.value))
    && forall i | 0 <= i < |problems| && problems[i].Part? && problems[i].child.Some? ::
         !Tags(problems[..i], problems[i].tag)
  }

  lemma {:induction false} ChildrenTagged(problems: seq<Problem>, tag: string)
    requires DecideAll(problems).Some? && tag in DecideAll(problems).value.children
    ensures Tags(problems, tag)
  {
    var n := |problems| - 1;
    var before := DecideAll(problems[..n]);
    if before.Some? && tag in before.value.children {
      ChildrenTagged(problems[..n], tag);
      var i :| 0 <= i < n && problems[..n][i].Part? && problems[..n][i].child.Some? && problems[..n][i].tag == tag;
      assert problems[i].tag == tag;
    } else {
      assert problems[n].tag == tag;
    }
  }

  // Then the result of the decision counts the reasons of its tree.
  lemma {:induction false} DecideAllCounted(problems: seq<Problem>)
    requires Distinguished(problems)
    ensures DecideAll(problems).Some? ==> Counted(DecideAll(problems).value)
  {
    if problems != [] {
      var n := |problems| - 1;
      var p, before := problems[n], OrNew(DecideAll(problems[..n]));
      assert problems == problems[..n] + [p] && p in problems;
      forall i | 0 <= i < n ensures problems[..n][..i] == problems[..i] {}
      DecideAllCounted(problems[..n]);
      if p.Part? && p.child.Some? {
        if p.tag in before.children { ChildrenTagged(problems[..n], p.tag); }
        OneMoreChild(before, p.child.value, p.tag);
      }
    }
  }

  lemma OneMoreChild(d: Decision, child: Decision, tag: string)
    requires Counted(d) && Counted(child) && tag !in d.children
    ensures Counted(d.(children := d.children[tag := child], result := d.result + child.result))
  {
    var more := d.children[tag := child];
    TotalWithout(more, more.Keys, tag);
    assert more.Keys - {tag} == d.children.Keys;
    TotalSame(more, d.children, d.children.Keys);
  }

  // keyval.go: what is reported of an unknown key.
  function NotKnown(key: string): string {
    "Key " + key + " is not known"
  }

  // A comma inside a reason reads like the one between two: one unknown key with a comma in its
  // name gives the same string as two unknown keys.
  lemma CommasJoinReasons(a: string, b: string, level: string)
    requires StringLeq(NotKnown(a), NotKnown(b))
    ensures var both := a + " is not known,Key " + b;
      var d, e := DecideAll([Reason(1, NotKnown(both))]), DecideAll([Reason(1, NotKnown(a)), Reason(1, NotKnown(b))]);
      && d.Some? && e.Some? && SortedString(d.value, level) == SortedString(e.value, level)
      && d.value.result == 1 && e.value.result == 2 && !Alike(d.value, e.value)
  {
    hide DecideAll, Spill, Alike, NotKnown;
    var one, p, q := NotKnown(a + " is not known,Key " + b), NotKnown(a), NotKnown(b);
    OneReason(one);
    TwoReasons(p, q);
    var d, e := Decision(map[], [one], 1), Decision(map[], [p, q], 2);
    SpillOne(d, one);
    SpillTwo(e, p, q);
    Joined(a, b);
    NotAlike(d, e);
  }

  lemma Joined(a: string, b: string)
    ensures NotKnown(a + " is not known,Key " + b) == NotKnown(a) + "," + NotKnown(b)
  {
    assert " is not known,Key " == " is not known" + "," + "Key ";
  }

  lemma NotAlike(d: Decision, e: Decision)
    requires |d.reasons| != |e.reasons|
    ensures !Alike(d, e)
  {
    assert |multiset(d.reasons)| == |d.reasons| && |multiset(e.reasons)| == |e.reasons|;
  }

  lemma OneReason(a: string)
    ensures DecideAll([Reason(1, a)]) == Some(Decision(map[], [a], 1))
  {
    assert [Reason(1, a)][..0] == [];
    assert DecideAll([]) == None && [] + [a] == [a];
  }

  lemma TwoReasons(a: string, b: string)
    ensures DecideAll([Reason(1, a), Reason(1, b)]) == Some(Decision(map[], [a, b], 2))
  {
    var p, q := Reason(1, a), Reason(1, b);
    assert [p, q][..1] == [p] && [p][..0] == [];
    assert DecideAll([]) == None && [] + [a] == [a];
    assert DecideAll([p]) == Some(Decision(map[], [a], 1));
    assert [a] + [b] == [a, b];
  }

  lemma SpillOne(d: Decision, a: string)
    requires d.children == map[] && d.reasons == [a]
    ensures Spill(d) == "[" + a + ",]"
  {
    SortedOne(a);
    SortedAs(d, [a]);
    assert [a][1..] == [];
    assert JoinReasons([a]) == a + ",";
  }

  lemma SpillTwo(d: Decision, a: string, b: string)
    requires d.children == map[] && d.reasons == [a, b] && StringLeq(a, b)
    ensures Spill(d) == "[" + a + "," + b + ",]"
  {
    hide StringLeq;
    SortedAs(d, [a, b]);
    assert [a, b][1..] == [b] && [b][1..] == [];
    assert JoinReasons([b]) == b + ",";
    assert JoinReasons([a, b]) == a + "," + b + ",";
  }

  // A tree without children whose reasons are sorted already.
  lemma SortedAs(d: Decision, reasons: seq<string>)
    requires d.children == map[] && d.reasons == reasons && Sorted(reasons)
    ensures Spill(d) == "[" + JoinReasons(reasons) + "]"
  {
    hide StringLeq, Sorted, JoinReasons;
    SortOk(reasons);
    SortedUnique(Sort(reasons), reasons);
    assert SortedKeys({}) == [] by { SortOk(Listing({})); assert |multiset(SortedKeys({}))| == 0; }
  }

  // A part that reports a second time under one tag replaces the first, while the result adds up:
  // the string does not tell the results apart.
  lemma TagsCollide(a: Decision, tag: string)
    requires a.result > 0
    ensures var d, e := DecideAll([Part(Some(a), tag)]), DecideAll([Part(Some(a), tag), Part(Some(a), tag)]);
      && d.Some? && e.Some? && SortedString(d.value, "Session") == SortedString(e.value, "Session")
      && e.value.result == 2 * d.value.result && !Equivalent(d.value, e.value)
  {
    hide Spill;
    var p := Part(Some(a), tag);
    assert [p, p][..1] == [p] && [p][..0] == [];
    assert DecideAll([]) == None;
    assert DecideAll([p]) == Some(Decision(map[tag := a], [], a.result));
    assert map[tag := a][tag := a] == map[tag := a];
    assert [p, p][1] == p;
    assert DecideAll([p, p]) == Some(Decision(map[tag := a], [], 2 * a.result));
    AlikeRefl(a);
    SpillCanonical(Decision(map[tag := a], [], a.result), Decision(map[tag := a], [], 2 * a.result));
  }

  lemma AlikeRefl(a: Decision)
    ensures Alike(a, a)
  {
    EquivalentRefl(a);
    EquivalentAlike(a, a);
  }

  // ---------- Writing the canonical string ----------

  // sort.Strings, as an insertion sort
  method SortStrings(s: seq<string>) returns (r: seq<string>)
    ensures Sorted(r) && multiset(r) == multiset(s)
  {
    r := [];
    for i := 0 to |s|
      invariant Sorted(r) && multiset(r) == multiset(s[..i])
    {
      InsertOk(s[i], r);
      r := Insert(s[i], r);
      assert s[..i + 1] == s[..i] + [s[i]];
    }
    assert s[..|s|] == s;
  }

  method SortedTags(d: Decision) returns (tags: seq<string>)
    ensures tags == SortedKeys(d.children.Keys)
  {
    var collected: seq<string> := [];
    var rest := d.children.Keys;
    while rest != {}
      invariant rest <= d.children.Keys
      invariant multiset(collected) == multiset(d.children.Keys - rest)
      decreases |rest|
    {
      var tag :| tag in rest;
      assert d.children.Keys - (rest - {tag}) == (d.children.Keys - rest) + {tag};
      assert multiset((d.children.Keys - rest) + {tag}) == multiset(d.children.Keys - rest) + multiset{tag};
      rest := rest - {tag};
      collected := collected + [tag];
    }
    assert d.children.Keys - rest == d.children.Keys;
    tags := SortStrings(collected);
    SortOk(Listing(d.children.Keys));
    SortedUnique(tags, SortedKeys(d.children.Keys));
  }

  method WriteReasons(reasons: seq<string>, sb0: string) returns (sb: string)
    ensures sb == sb0 + JoinReasons(reasons)
  {
    sb := sb0;
    for i := 0 to |reasons|
      invariant sb + JoinReasons(reasons[i..]) == sb0 + JoinReasons(reasons)
    {
      sb := sb + reasons[i] + ",";
      assert reasons[i..][1..] == reasons[i + 1..];
    }
  }

  // SortedSpillOut appends to the builder and leaves the reasons of the whole tree sorted.
  method SortedSpillOut(d: Decision, sb0: string) returns (sb: string, after: Decision)
    ensures sb == sb0 + Spill(d)
    ensures Equivalent(d, after) && Sorted(after.reasons)
    decreases d, 1
  {
    hide Sort, SortedKeys, JoinReasons, SpillChildren, Sorted;
    var tags := SortedTags(d);
    var reasons := SortStrings(d.reasons);
    SortOk(d.reasons);
    SortedUnique(reasons, Sort(d.reasons));
    SortOk(Listing(d.children.Keys));
    var children;
    sb, children := WriteChildren(d, tags, sb0 + "[");
    sb := WriteReasons(reasons, sb);
    sb := sb + "]";
    after := Decision(children, reasons, d.result);
  }

  method WriteChildren(d: Decision, tags: seq<string>, sb0: string)
    returns (sb: string, children: map<string, Decision>)
    requires forall t | t in tags :: t in d.children
    ensures sb == sb0 + SpillChildren(d, tags)
    ensures children.Keys == d.children.Keys
    ensures forall t | t in d.children :: Equivalent(d.children[t], children[t])
    decreases d, 0
  {
    hide Spill, Equivalent, Sort, Sorted;
    sb, children := sb0, d.children;
    forall t | t in d.children ensures Equivalent(d.children[t], children[t]) { EquivalentRefl(d.children[t]); }
    for i := 0 to |tags|
      invariant sb + SpillChildren(d, tags[i..]) == sb0 + SpillChildren(d, tags)
      invariant children.Keys == d.children.Keys
      invariant forall t | t in d.children :: Equivalent(d.children[t], children[t])
    {
      var child;
      sb := sb + tags[i] + ":";
      sb, child := SortedSpillOut(d.children[tags[i]], sb);
      sb := sb + ",";
      children := children[tags[i] := child];
      assert tags[i..][1..] == tags[i + 1..];
    }
  }

  lemma {:induction false} EquivalentRefl(d: Decision)
    ensures Equivalent(d, d)
    decreases d
  {
    forall t | t in d.children ensures Equivalent(d.children[t], d.children[t]) { EquivalentRefl(d.children[t]); }
  }

  method WriteSortedString(d: Decision, tag: string) returns (str: string, after: Decision)
    ensures str == SortedString(d, tag) && Equivalent(d, after)
  {
    str, after := "", d;
    EquivalentRefl(d);
    if d.result > 0 {
      str, after := SortedSpillOut(d, tag);
    }
  }

  // ---------- The gate's alerts ----------

  const ALERTS_LIMIT := 1000

  datatype Alert = Alert(str: string, decision: Decision, time: int, level: string, count: nat)

  ghost predicate Distinct(alerts: seq<Alert>) {
    forall i, j | 0 <= i < j < |alerts| :: alerts[i].str != alerts[j].str
  }

  function Counts(alerts: seq<Alert>): nat {
    if alerts == [] then 0 else Counts(alerts[..|alerts| - 1]) + alerts[|alerts| - 1].count
  }

  predicate Known(alerts: seq<Alert>, str: string) {
    exists i :: 0 <= i < |alerts| && alerts[i].str == str
  }

  lemma {:induction false} CountsUpdate(alerts: seq<Alert>, i: nat, a: Alert)
    requires i < |alerts|
    ensures Counts(alerts[i := a]) == Counts(alerts) - alerts[i].count + a.count
  {
    var n := |alerts| - 1;
    if i < n {
      CountsUpdate(alerts[..n], i, a);
      assert alerts[i := a][..n] == alerts[..n][i := a];
    } else {
      assert alerts[i := a][..n] == alerts[..n];
    }
  }

  // The one alert with this string is counted once more; nothing else changes.
  ghost predicate CountedOnce(before: seq<Alert>, after: seq<Alert>, str: string) {
    |after| == |before| && forall i | 0 <= i < |after| :: after[i] == Recounted(before[i], str)
  }

  function Recounted(a: Alert, str: string): Alert {
    if a.str == str then a.(count := a.count + 1) else a
  }

  // One new alert, counted once, whose decision differs at most in the order of its reasons.
  ghost predicate Appended(before: seq<Alert>, after: seq<Alert>, str: string,
                           decision: Decision, level: string, now: int) {
    && |after| == |before| + 1 && after[..|before|] == before
    && var a := after[|before|];
    a == Alert(str, a.decision, now, level, 1) && Equivalent(decision, a.decision)
  }

  // Every alert has its own string and counts each time that string was raised; while there is
  // room every string raised is listed; what is not counted was dropped.
  ghost predicate Accounts(alerts: seq<Alert>, history: seq<string>, dropped: nat) {
    && Distinct(alerts) && |alerts| <= ALERTS_LIMIT
    && (forall i | 0 <= i < |alerts| :: alerts[i].count == multiset(history)[alerts[i].str])
    && (|alerts| < ALERTS_LIMIT ==> dropped == 0 && forall str | str in history :: Known(alerts, str))
    && Counts(alerts) + dropped == |history|
  }

  lemma AccountsStep(before: seq<Alert>, after: seq<Alert>, history: seq<string>, dropped: nat, str: string)
    requires Accounts(before, history, dropped)
    requires Distinct(after) && Counts(after) == Counts(before) + 1
    requires if Known(before, str) then CountedOnce(before, after, str)
             else |before| < ALERTS_LIMIT && |after| == |before| + 1 && after[..|before|] == before
                  && after[|before|].str == str && after[|before|].count == 1
    ensures Accounts(after, history + [str], dropped)
  {
    hide Counts;
    var all := history + [str];
    forall i | 0 <= i < |after| ensures after[i].count == multiset(all)[after[i].str] {
      if !Known(before, str) {
        assert str !in history;
        if i < |before| { assert after[i] == after[..|before|][i]; }
      }
    }
    forall s | s in all && |after| < ALERTS_LIMIT ensures Known(after, s) {
      if Known(before, s) {
        var i :| 0 <= i < |before| && before[i].str == s;
        assert after[i].str == s by { if !Known(before, str) { assert after[i] == after[..|before|][i]; } }
      } else {
        assert s == str;
        assert after[|before|].str == s;
      }
    }
  }

  lemma TurnedAway(alerts: seq<Alert>, history: seq<string>, dropped: nat, str: string)
    requires Accounts(alerts, history, dropped)
    requires |alerts| == ALERTS_LIMIT && !Known(alerts, str)
    ensures Accounts(alerts, history + [str], dropped + 1)
  {
    hide Counts;
    forall i | 0 <= i < |alerts| ensures multiset(history + [str])[alerts[i].str] == multiset(history)[alerts[i].str] {
      assert alerts[i].str != str;
    }
  }

  // As long as fewer than a thousand alerts are listed, every string raised is, and none was dropped.
  lemma NoneDropped(alerts: seq<Alert>, history: seq<string>, dropped: nat)
    requires Accounts(alerts, history, dropped)
    ensures |alerts| <= 1000
    ensures |alerts| < 1000 ==> Counts(alerts) == |history| && forall str | str in history :: Known(alerts, str)
  {
  }

  // The alerts of a gate. The ghost fields are history: the strings raised, and how many of them
  // were turned away, since the list was last cleared by a sync.
  class GateAlerts {
    var alerts: seq<Alert>
    ghost var history: seq<string>
    ghost var dropped: nat

    ghost predicate Valid()
      reads this
    {
      Accounts(alerts, history, dropped)
    }

    constructor ()
      ensures Valid() && alerts == [] && history == [] && dropped == 0
    {
      alerts, history, dropped := [], [], 0;
    }

    // AddAlert of v1alpha1.go
    method Append(decision: Decision, level: string, now: int)
      requires Valid()
      modifies this`alerts
      ensures Distinct(alerts) && Counts(alerts) == old(Counts(alerts)) + 1
      ensures var str := SortedString(decision, level);
        if Known(old(alerts), str) then CountedOnce(old(alerts), alerts, str)
        else Appended(old(alerts), alerts, str, decision, level, now)
    {
      hide Spill, Equivalent, SortedString;
      var str, after := WriteSortedString(decision, level);
      for i := 0 to |alerts|
        invariant forall j | 0 <= j < i :: alerts[j].str != str
        invariant alerts == old(alerts)
      {
        if alerts[i].str == str {
          CountsUpdate(alerts, i, alerts[i].(count := alerts[i].count + 1));
          alerts := alerts[i := alerts[i].(count := alerts[i].count + 1)];
          return;
        }
      }
      alerts := alerts + [Alert(str, after, now, level, 1)];
      assert alerts[..|old(alerts)|] == old(alerts);
    }

    // addAlert of client.go: a new alert that does not fit is dropped again.
    method AddAlert(decision: Decision, level: string, now: int) returns (numAlerts: nat)
      requires Valid()
      modifies this
      ensures Valid() && numAlerts == |alerts|
      ensures history == old(history) + [SortedString(decision, level)]
      ensures dropped == old(dropped) + (if |old(alerts)| == 1000
                                          && !Known(old(alerts), SortedString(decision, level)) then 1 else 0)
      ensures var str := SortedString(decision, level);
        if Known(old(alerts), str) then CountedOnce(old(alerts), alerts, str)
        else if |old(alerts)| == 1000 then alerts == old(alerts)
        else Appended(old(alerts), alerts, str, decision, level, now)
    {
      hide Spill, Equivalent, SortedString, Counts;
      ghost var str := SortedString(decision, level);
      Append(decision, level, now);
      numAlerts := |alerts|;
      if numAlerts > ALERTS_LIMIT {
        alerts := alerts[..numAlerts - 1];
        numAlerts := numAlerts - 1;
        dropped := dropped + 1;
        TurnedAway(alerts, history, dropped - 1, str);
      } else {
        AccountsStep(old(alerts), alerts, history, dropped, str);
      }
      history := history + [str];
    }

    // A successful sync delivers the alerts and clears the list; a failed one keeps it.
    method Synced(success: bool)
      requires Valid()
      modifies this
      ensures Valid()
      ensures if success then alerts == [] && history == [] && dropped == 0
              else alerts == old(alerts) && history == old(history) && dropped == old(dropped)
    {
      if success {
        alerts, history, dropped := [], [], 0;
      }
    }
  }
}
