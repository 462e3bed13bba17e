// simpleVal.go: what profiles and rules say about strings, told from the characters alone.
module StringLaws {
  import opened Bits
  import opened Scanner
  import FS = FlagSlice
  import Limit
  import SV = SimpleVal

  // ---------- Characters ----------

  // The special characters in the order of their flags; a bracket that closes shares the flag of the
  // one that opens.
  const SYMBOLS := "!\"#$%&'(*+,-./:;<=?@\\[^_`|{~"

  function Opening(c: char): char {
    if c == ')' then '(' else if c == ']' then '[' else if c == '}' then '{' else if c == '>' then '<' else c
  }

  // 0 to 5 for letters, digits, spaces, other ASCII characters, control codes and unicode.
  function KindOf(c: char): nat {
    var code := c as int;
    if code >= 128 then 5
    else if code < 32 || code == 127 then 4
    else if 65 <= code <= 90 || 97 <= code <= 122 then 0
    else if 48 <= code <= 57 then 1
    else if code == 32 then 2
    else 3
  }

  function KindNumber(cls: Class): nat {
    match cls
    case Letter => 0
    case Digit => 1
    case Space => 2
    case Special => 3
    case NonReadable => 4
    case Unicode => 5
  }

  lemma KindIs(c: char)
    ensures KindOf(c) == KindNumber(ClassOf(c))
  {
  }

  // Every special character has its own flag but for the four pairs of brackets.
  lemma SlotOfSymbol(c: char)
    requires KindOf(c) == 3
    ensures ClassOf(c) == Special && |SYMBOLS| == 28 && SlotOf(c) < 28 && SYMBOLS[SlotOf(c)] == Opening(c)
  {
  }

  // No two of them are equal.
  lemma SlotOfFlag(f: nat)
    requires f < 28
    ensures SlotAt(f)
  {
    if f < 14 { EarlySlot(f); } else { LateSlot(f); }
  }

  lemma EarlySlot(f: nat)
    requires f < 14
    ensures SlotAt(f)
  {
  }

  lemma LateSlot(f: nat)
    requires 14 <= f < 28
    ensures SlotAt(f)
  {
  }

  predicate SlotAt(i: nat) {
    && |SYMBOLS| == 28
    && (i < 28 ==> KindOf(SYMBOLS[i]) == 3 && SlotOf(SYMBOLS[i]) == i && Opening(SYMBOLS[i]) == SYMBOLS[i])
  }

  // ---------- Flags ----------

  // The flag of a symbol is set exactly if the symbol, or the bracket that closes it, occurs.
  lemma SymbolFlag(str: string, f: nat)
    requires f < 28
    ensures |SYMBOLS| == 28
    ensures Bit(ProfileOf(str).flags, f) <==> exists c | c in str :: Opening(c) == SYMBOLS[f]
  {
    hide ProfileOf, SlotOf, ClassOf, KindOf, Opening, Bit;
    FlagBit(str, f);
    SlotOfFlag(f);
    forall c: char ensures ClassOf(c) == Special && SlotOf(c) == f <==> Opening(c) == SYMBOLS[f] {
      SlotIsFlag(c, f);
    }
    if HasSlot(str, f) {
      var i: nat :| i < |str| && ClassOf(str[i]) == Special && SlotOf(str[i]) == f;
      assert str[i] in str;
    }
    if c :| c in str && Opening(c) == SYMBOLS[f] {
      var i: nat :| i < |str| && str[i] == c;
      assert HasSlot(str, f);
    }
  }

  lemma SlotIsFlag(c: char, f: nat)
    requires f < 28
    ensures |SYMBOLS| == 28
    ensures ClassOf(c) == Special && SlotOf(c) == f <==> Opening(c) == SYMBOLS[f]
  {
    SlotOfFlag(f);
    KindIs(c);
    OpeningKind(c);
    hide SlotOf, ClassOf, KindOf, Opening;
    if KindOf(c) == 3 {
      SlotOfSymbol(c);
      SlotOfFlag(SlotOf(c));
    }
  }

  lemma OpeningKind(c: char)
    ensures KindOf(c) == KindOf(Opening(c))
    ensures ClassOf(c) == Special <==> KindOf(c) == 3
  {
  }

  // The pair of characters stands somewhere in the string.
  ghost predicate Occurs(str: string, pair: string) {
    exists i: nat :: StandsAt(str, pair, i)
  }

  predicate StandsAt(str: string, pair: string, i: nat) {
    i + |pair| <= |str| && str[i..i + |pair|] == pair
  }

  // The two flags for pairs of characters: hexadecimal prefixes, and the marks of comments.
  lemma PairFlags(str: string)
    ensures Bit(ProfileOf(str).flags, 31) <==> Occurs(str, "0x") || Occurs(str, "0X")
    ensures Bit(ProfileOf(str).flags, 30) <==> Occurs(str, "/*") || Occurs(str, "*/") || Occurs(str, "--")
    ensures !Bit(ProfileOf(str).flags, 29) && !Bit(ProfileOf(str).flags, 28)
  {
    hide ProfileOf, Bit;
    FlagBit(str, 31);
    FlagBit(str, 30);
    FlagBit(str, 29);
    FlagBit(str, 28);
    forall i: nat | i < |str| && ClassOf(str[i]) == Special ensures SlotOf(str[i]) < 28 {
      KindIs(str[i]);
      SlotOfSymbol(str[i]);
    }
    hide SlotOf, ClassOf;
    PairIs(str, "0x");
    PairIs(str, "0X");
    PairIs(str, "/*");
    PairIs(str, "*/");
    PairIs(str, "--");
  }

  lemma PairIs(str: string, pair: string)
    requires |pair| == 2
    ensures HasPair(str, pair[0], pair[1]) <==> Occurs(str, pair)
  {
    if HasPair(str, pair[0], pair[1]) {
      var i: nat :| i + 1 < |str| && str[i] == pair[0] && str[i + 1] == pair[1];
      assert StandsAt(str, pair, i);
    }
    if i: nat :| StandsAt(str, pair, i) {
      assert str[i] == str[i..i + 2][0] && str[i + 1] == str[i..i + 2][1];
    }
  }

  // Bit b of word e of the unicode flags stands for 128 consecutive codes.
  lemma UnicodeFlag(str: string, e: nat, b: nat)
    requires b < 32
    ensures var start := 128 * (32 * e + b + 1);
      FS.IsSet(ProfileOf(str).unicodeFlags, e, b) <==> exists c | c in str :: start <= c as int < start + 128
  {
    hide ProfileOf, Bit;
    BlockBit(str, e, b);
    BitZero(b);
    var start := 128 * (32 * e + b + 1);
    if HasBlock(str, e, b) {
      var i: nat :| i < |str| && InBlock(str[i], e, b);
      assert str[i] in str;
    }
    if c :| c in str && start <= c as int < start + 128 {
      var i: nat :| i < |str| && str[i] == c;
      assert InBlock(str[i], e, b);
    }
  }

  // ---------- Counters ----------

  // How many characters are of this kind.
  function CountOf(str: string, kind: nat): nat {
    if str == [] then 0
    else CountOf(str[..|str| - 1], kind) + if KindOf(str[|str| - 1]) == kind then 1 else 0
  }

  // How often the kind changes from one character to the next; the first character counts.
  function RunsOf(str: string): nat {
    if str == [] then 0
    else
      var n := |str| - 1;
      RunsOf(str[..n]) + if n == 0 || KindOf(str[n]) != KindOf(str[n - 1]) then 1 else 0
  }

  lemma {:induction false} CountIs(str: string, cls: Class)
    ensures |Positions(str, cls)| == CountOf(str, KindNumber(cls))
  {
    hide Positions, ClassOf, KindOf;
    if str == [] {
      NoPositions(cls);
    } else {
      var n := |str| - 1;
      assert str == str[..n] + [str[n]];
      CountIs(str[..n], cls);
      PositionsStep(str[..n], str[n], cls);
      KindIs(str[n]);
    }
  }

  lemma NoPositions(cls: Class)
    ensures Positions([], cls) == {} && RunStarts([]) == {}
  {
  }

  lemma {:induction false} RunsAre(str: string)
    ensures |RunStarts(str)| == RunsOf(str)
  {
    hide RunStarts, ClassOf, KindOf;
    if str == [] {
      NoPositions(Letter);
    } else {
      var n := |str| - 1;
      assert str == str[..n] + [str[n]];
      RunsAre(str[..n]);
      RunStartsStep(str[..n], str[n]);
      KindIs(str[n]);
      if n > 0 { KindIs(str[n - 1]); }
    }
  }

  // ---------- Rules ----------

  // A rule accepts a string exactly if none of its seven counters exceeds its limit and all flags it
  // raises are allowed.
  lemma AcceptsString(c: SV.Config, str: string)
    ensures SV.Accepts(c, ProfileOf(str)) <==>
      && Limit.Encoded(CountOf(str, 0)) <= c.letters
      && Limit.Encoded(CountOf(str, 1)) <= c.digits
      && Limit.Encoded(CountOf(str, 2)) <= c.spaces
      && Limit.Encoded(CountOf(str, 3)) <= c.specialChars
      && Limit.Encoded(CountOf(str, 4)) <= c.nonReadables
      && Limit.Encoded(CountOf(str, 5)) <= c.unicodes
      && Limit.Encoded(RunsOf(str)) <= c.sequences
      && (forall f: nat | Bit(ProfileOf(str).flags, f) :: Bit(c.flags, f))
      && (forall e: nat, b: nat | FS.IsSet(ProfileOf(str).unicodeFlags, e, b) :: FS.IsSet(c.unicodeFlags, e, b))
  {
    hide Bit, Subset, FS.Within, Limit.Encoded, CountOf, RunsOf, Positions, RunStarts, FlagWord, BlockFlags;
    CountIs(str, Letter);
    CountIs(str, Digit);
    CountIs(str, Space);
    CountIs(str, Special);
    CountIs(str, NonReadable);
    CountIs(str, Unicode);
    RunsAre(str);
    SubsetIsBitwise(ProfileOf(str).flags, c.flags);
    FS.WithinIsBitwise(ProfileOf(str).unicodeFlags, c.unicodeFlags);
  }

  // With equal flags, scores differ as the counters do; the less usual characters and sequences
  // weigh four.
  lemma CounterWeights(c: SV.Config, d: SV.Config)
    requires c.flags == d.flags && c.unicodeFlags == d.unicodeFlags
    ensures SV.ExactScore(d) - SV.ExactScore(c) ==
      (d.digits - c.digits) + (d.letters - c.letters) + (d.spaces - c.spaces) + (d.unicodes - c.unicodes)
      + 4 * (d.specialChars - c.specialChars) + 4 * (d.nonReadables - c.nonReadables)
      + 4 * (d.sequences - c.sequences)
  {
    hide Ones, FS.Count;
  }

  lemma EmptyScore()
    ensures SV.ExactScore(SV.EMPTY_CONFIG) == 0
  {
    assert Ones(0) == 0 && FS.Count([]) == 0;
    hide Ones, FS.Count;
  }

  // One more flag adds four, in whichever word.
  lemma FlagWeights(c: SV.Config, flags: Word, e: nat, b: nat)
    ensures !Bit(c.flags, b) && flags == Or(c.flags, Pow2(b)) ==>
      SV.ExactScore(c.(flags := flags)) == SV.ExactScore(c) + 4
    ensures e < |c.unicodeFlags| && !Bit(c.unicodeFlags[e], b) && flags == Or(c.unicodeFlags[e], Pow2(b)) ==>
      SV.ExactScore(c.(unicodeFlags := c.unicodeFlags[e := flags])) == SV.ExactScore(c) + 4
  {
    hide Bit, Or, Ones, FS.Count;
    if !Bit(c.flags, b) { FS.OneMoreFlag(c.flags, b); }
    if e < |c.unicodeFlags| {
      var f := c.unicodeFlags;
      if !Bit(f[e], b) { FS.OneMoreFlag(f[e], b); }
      assert f == f[..e] + [f[e]] + f[e + 1..];
      assert f[e := flags] == f[..e] + [flags] + f[e + 1..];
      FS.CountAdds(f[..e] + [f[e]], f[e + 1..]);
      FS.CountAdds(f[..e], [f[e]]);
      FS.CountAdds(f[..e] + [flags], f[e + 1..]);
      FS.CountAdds(f[..e], [flags]);
    }
  }
}
