// simpleVal.go: the one-pass scanner of SimpleValProfile.Profile. Its result is described
// without the scan: by counting positions of the string and by asking which characters
// and pairs of characters occur in it.
module Scanner {
  import opened Bits
  import opened FlagSlice
  import opened Wrappers
  import Limit

  datatype Profile = Profile(
    digits: Byte,
    letters: Byte,
    spaces: Byte,
    specialChars: Byte,
    nonReadables: Byte,
    unicodes: Byte,
    sequences: Byte,
    flags: Word,
    unicodeFlags: Flags)

  // ---------- Declarative description ----------

  datatype Class = Letter | Digit | Space | Special | NonReadable | Unicode

  function ClassOf(c: char): Class {
    if c as int >= 128 then Unicode
    else if 'a' <= c <= 'z' || 'A' <= c <= 'Z' then Letter
    else if '0' <= c <= '9' then Digit
    else if c == ' ' then Space
    else if c < ' ' || c as int == 127 then NonReadable
    else Special
  }

  // Positions of the string that hold a character of the class.
  function Positions(str: string, cls: Class): set<nat> {
    set i: nat | i < |str| && ClassOf(str[i]) == cls
  }

  predicate StartsRun(str: string, i: nat)
    requires i < |str|
  {
    i == 0 || ClassOf(str[i]) != ClassOf(str[i - 1])
  }

  // Positions at which a maximal run of same-class characters begins.
  function RunStarts(str: string): set<nat> {
    set i: nat | i < |str| && StartsRun(str, i)
  }

  const HEX_SLOT := 31
  const COMMENTS_SLOT := 30

  predicate HasPair(str: string, a: char, b: char) {
    exists i: nat :: i + 1 < |str| && str[i] == a && str[i + 1] == b
  }

  predicate HasHex(str: string) {
    HasPair(str, '0', 'x') || HasPair(str, '0', 'X')
  }

  predicate HasComment(str: string) {
    HasPair(str, '/', '*') || HasPair(str, '*', '/') || HasPair(str, '-', '-')
  }

  // The flag slot of each special character; brackets of a pair share a slot.
  function SlotOf(c: char): nat
    requires ClassOf(c) == Special
  {
    match c
    case '!' => 0   case '"' => 1   case '#' => 2   case '$' => 3
    case '%' => 4   case '&' => 5   case '\'' => 6  case '(' => 7
    case ')' => 7   case '*' => 8   case '+' => 9   case ',' => 10
    case '-' => 11  case '.' => 12  case '/' => 13  case ':' => 14
    case ';' => 15  case '<' => 16  case '>' => 16  case '=' => 17
    case '?' => 18  case '@' => 19  case '\\' => 20 case '[' => 21
    case ']' => 21  case '^' => 22  case '_' => 23  case '`' => 24
    case '|' => 25  case '{' => 26  case '}' => 26  case _ => 27
  }

  predicate HasSlot(str: string, slot: nat) {
    exists i: nat :: i < |str| && ClassOf(str[i]) == Special && SlotOf(str[i]) == slot
  }

  // What the flag with this number means for a string.
  predicate FlagOccurs(str: string, flag: nat) {
    if flag == HEX_SLOT then HasHex(str)
    else if flag == COMMENTS_SLOT then HasComment(str)
    else HasSlot(str, flag)
  }

  function FlagSet(str: string): set<nat> {
    set f: nat | f < 32 && FlagOccurs(str, f)
  }

  // Unicode characters are grouped in blocks of 128 codes; block 0 holds codes 128 to 255.
  function BlockOf(c: char): nat
    requires ClassOf(c) == Unicode
  {
    c as int / 128 - 1
  }

  // Bit b of word element stands for block 32 * element + b.
  predicate InBlock(c: char, element: nat, b: nat) {
    ClassOf(c) == Unicode && BlockOf(c) == 32 * element + b
  }

  predicate HasBlock(str: string, element: nat, b: nat) {
    exists i: nat :: i < |str| && InBlock(str[i], element, b)
  }

  function BlockSet(str: string, element: nat): set<nat> {
    set b: nat | b < 32 && HasBlock(str, element, b)
  }

  // The number of words needed to hold every block of the string.
  function BlockWords(str: string): nat {
    if str == [] then 0
    else
      var c := str[|str| - 1];
      var rest := BlockWords(str[..|str| - 1]);
      if ClassOf(c) == Unicode then Longer(rest, BlockOf(c) / 32 + 1) else rest
  }

  function FlagWord(str: string): Word {
    Pow2Word();
    FromSet(FlagSet(str), 32)
  }

  function BlockWord(str: string, element: nat): Word {
    Pow2Word();
    FromSet(BlockSet(str, element), 32)
  }

  function BlockFlags(str: string): (f: Flags)
    ensures |f| == BlockWords(str)
  {
    seq(BlockWords(str), j requires j >= 0 => BlockWord(str, j))
  }

  function ProfileOf(str: string): Profile {
    Profile(
      Limit.Encoded(|Positions(str, Digit)|),
      Limit.Encoded(|Positions(str, Letter)|),
      Limit.Encoded(|Positions(str, Space)|),
      Limit.Encoded(|Positions(str, Special)|),
      Limit.Encoded(|Positions(str, NonReadable)|),
      Limit.Encoded(|Positions(str, Unicode)|),
      Limit.Encoded(|RunStarts(str)|),
      FlagWord(str),
      BlockFlags(str))
  }

  // Each character is counted by exactly one of the six class counters.
  lemma {:induction false} ClassesPartition(str: string)
    ensures |Positions(str, Letter)| + |Positions(str, Digit)| + |Positions(str, Space)|
          + |Positions(str, Special)| + |Positions(str, NonReadable)| + |Positions(str, Unicode)| == |str|
  {
    if str != [] {
      var n := |str| - 1;
      var s := str[..n];
      assert str == s + [str[n]];
      ClassesPartition(s);
      PositionsStep(s, str[n], Letter);
      PositionsStep(s, str[n], Digit);
      PositionsStep(s, str[n], Space);
      PositionsStep(s, str[n], Special);
      PositionsStep(s, str[n], NonReadable);
      PositionsStep(s, str[n], Unicode);
    }
  }

  // A flag bit is set exactly when what it stands for occurs.
  lemma FlagBit(str: string, f: nat)
    requires f < 32
    ensures Bit(ProfileOf(str).flags, f) <==> FlagOccurs(str, f)
  {
    BitFromSet(FlagSet(str), 32, f);
  }

  // A unicode bit is set exactly when some character lies in that block of 128 codes.
  lemma BlockBit(str: string, element: nat, b: nat)
    requires b < 32
    ensures Bit(At(ProfileOf(str).unicodeFlags, element), b) <==> HasBlock(str, element, b)
  {
    if element < BlockWords(str) {
      BitFromSet(BlockSet(str, element), 32, b);
    } else {
      BitZero(b);
      forall i: nat | i < |str| ensures !InBlock(str[i], element, b) {
        if InBlock(str[i], element, b) { BlockWordsCover(str, i); }
      }
    }
  }

  lemma {:induction false} BlockWordsCover(str: string, i: nat)
    requires i < |str| && ClassOf(str[i]) == Unicode
    ensures BlockOf(str[i]) / 32 < BlockWords(str)
  {
    if i < |str| - 1 { BlockWordsCover(str[..|str| - 1], i); }
  }

  // ---------- One more character ----------

  lemma PositionsStep(s: string, c: char, cls: Class)
    ensures |Positions(s + [c], cls)| == |Positions(s, cls)| + if ClassOf(c) == cls then 1 else 0
  {
    var t := s + [c];
    if ClassOf(c) == cls {
      assert Positions(t, cls) == Positions(s, cls) + {|s|};
    } else {
      assert Positions(t, cls) == Positions(s, cls);
    }
  }

  lemma RunStartsStep(s: string, c: char)
    ensures |RunStarts(s + [c])|
         == |RunStarts(s)| + if s == [] || ClassOf(c) != ClassOf(s[|s| - 1]) then 1 else 0
  {
    hide ClassOf;
    var t := s + [c];
    assert forall i: nat | i < |s| :: StartsRun(t, i) <==> StartsRun(s, i);
    if s == [] || ClassOf(c) != ClassOf(s[|s| - 1]) {
      assert RunStarts(t) == RunStarts(s) + {|s|};
    } else {
      assert RunStarts(t) == RunStarts(s);
    }
  }

  lemma HasPairStep(s: string, c: char, a: char, b: char)
    ensures HasPair(s + [c], a, b) <==> HasPair(s, a, b) || (s != [] && s[|s| - 1] == a && c == b)
  {
    var t := s + [c];
    if HasPair(s, a, b) {
      var i: nat :| i + 1 < |s| && s[i] == a && s[i + 1] == b;
      assert t[i] == a && t[i + 1] == b;
    } else if s != [] && s[|s| - 1] == a && c == b {
      assert t[|s| - 1] == a && t[|s| - 1 + 1] == b;
    }
  }

  lemma HasSlotStep(s: string, c: char, slot: nat)
    ensures HasSlot(s + [c], slot) <==> HasSlot(s, slot) || (ClassOf(c) == Special && SlotOf(c) == slot)
  {
    var t := s + [c];
    if HasSlot(s, slot) {
      var i: nat :| i < |s| && ClassOf(s[i]) == Special && SlotOf(s[i]) == slot;
      assert t[i] == s[i];
    }
    if ClassOf(c) == Special && SlotOf(c) == slot { assert t[|s|] == c; }
  }

  lemma HasBlockStep(s: string, c: char, element: nat, b: nat)
    ensures HasBlock(s + [c], element, b) <==> HasBlock(s, element, b) || InBlock(c, element, b)
  {
    var t := s + [c];
    if HasBlock(s, element, b) {
      var i: nat :| i < |s| && InBlock(s[i], element, b);
      assert t[i] == s[i];
    }
    if InBlock(c, element, b) { assert t[|s|] == c; }
  }

  // Setting one more bit adds one more member.
  lemma SetBit(s: set<nat>, t: set<nat>, j: nat)
    requires j < 32 && t == s + {j}
    ensures Or(FromSet(s, 32), Pow2(j)) == FromSet(t, 32)
  {
    forall i: nat ensures Bit(Or(FromSet(s, 32), Pow2(j)), i) <==> Bit(FromSet(t, 32), i) {
      BitOr(FromSet(s, 32), Pow2(j), i);
      BitPow2(j, i);
      BitFromSet(s, 32, i);
      BitFromSet(t, 32, i);
    }
    SameBits(Or(FromSet(s, 32), Pow2(j)), FromSet(t, 32));
  }

  function Last(s: string): Option<char> {
    if s == [] then None else Some(s[|s| - 1])
  }

  // c completes a comment marker or a hex prefix begun by the previous character.
  predicate ClosesComment(previous: Option<char>, c: char) {
    || (previous == Some('*') && c == '/')
    || (previous == Some('/') && c == '*')
    || (previous == Some('-') && c == '-')
  }

  predicate ClosesHex(previous: Option<char>, c: char) {
    previous == Some('0') && (c == 'x' || c == 'X')
  }

  lemma FlagSetStep(s: string, c: char)
    ensures FlagSet(s + [c]) == FlagSet(s)
         + (if ClosesHex(Last(s), c) then {HEX_SLOT} else {})
         + (if ClosesComment(Last(s), c) then {COMMENTS_SLOT} else {})
         + (if ClassOf(c) == Special then {SlotOf(c)} else {})
  {
    var t := s + [c];
    HasPairStep(s, c, '0', 'x');
    HasPairStep(s, c, '0', 'X');
    HasPairStep(s, c, '/', '*');
    HasPairStep(s, c, '*', '/');
    HasPairStep(s, c, '-', '-');
    assert ClassOf(c) == Special ==> SlotOf(c) < 28;
    forall f: nat | f < 32
      ensures FlagOccurs(t, f) <==>
        (|| FlagOccurs(s, f)
         || (ClosesHex(Last(s), c) && f == HEX_SLOT)
         || (ClosesComment(Last(s), c) && f == COMMENTS_SLOT)
         || (ClassOf(c) == Special && SlotOf(c) == f))
    {
      HasSlotStep(s, c, f);
    }
  }

  lemma BlockSetStep(s: string, c: char, element: nat)
    ensures BlockSet(s + [c], element) == BlockSet(s, element)
         + (if ClassOf(c) == Unicode && BlockOf(c) / 32 == element then {BlockOf(c) % 32} else {})
  {
    forall b: nat | b < 32
      ensures HasBlock(s + [c], element, b) <==> HasBlock(s, element, b) || InBlock(c, element, b)
    {
      HasBlockStep(s, c, element, b);
    }
    assert forall b: nat | b < 32 ::
      InBlock(c, element, b) <==> ClassOf(c) == Unicode && BlockOf(c) / 32 == element && b == BlockOf(c) % 32;
  }

  // The word of flags of a string that does not reach word element.
  lemma BlockWordEmpty(s: string, element: nat)
    requires element >= BlockWords(s)
    ensures BlockWord(s, element) == 0
  {
    forall b: nat | b < 32 ensures !HasBlock(s, element, b) {
      if HasBlock(s, element, b) {
        var i: nat :| i < |s| && InBlock(s[i], element, b);
        BlockWordsCover(s, i);
      }
    }
    assert BlockSet(s, element) == {};
    FromEmpty(32);
  }

  lemma {:induction false} FromEmpty(n: nat)
    ensures FromSet({}, n) == 0
  {
    if n > 0 { FromEmpty(n - 1); }
  }

  // ---------- The scan ----------

  const LETTER_SLOT := 32
  const DIGIT_SLOT := 33
  const NON_READABLE_SLOT := 34
  const SPACE_SLOT := 35

  // asciiMap; the 32 control codes share one slot
  function AsciiMap(code: nat): nat
    requires code < 128
  {
    match code
    case 32 => 35 case 33 => 0 case 34 => 1 case 35 => 2 case 36 => 3 case 37 => 4
    case 38 => 5 case 39 => 6 case 40 => 7 case 41 => 7 case 42 => 8 case 43 => 9
    case 44 => 10 case 45 => 11 case 46 => 12 case 47 => 13 case 48 => 33 case 49 => 33
    case 50 => 33 case 51 => 33 case 52 => 33 case 53 => 33 case 54 => 33 case 55 => 33
    case 56 => 33 case 57 => 33 case 58 => 14 case 59 => 15 case 60 => 16 case 61 => 17
    case 62 => 16 case 63 => 18 case 64 => 19 case 65 => 32 case 66 => 32 case 67 => 32
    case 68 => 32 case 69 => 32 case 70 => 32 case 71 => 32 case 72 => 32 case 73 => 32
    case 74 => 32 case 75 => 32 case 76 => 32 case 77 => 32 case 78 => 32 case 79 => 32
    case 80 => 32 case 81 => 32 case 82 => 32 case 83 => 32 case 84 => 32 case 85 => 32
    case 86 => 32 case 87 => 32 case 88 => 32 case 89 => 32 case 90 => 32 case 91 => 21
    case 92 => 20 case 93 => 21 case 94 => 22 case 95 => 23 case 96 => 24 case 97 => 32
    case 98 => 32 case 99 => 32 case 100 => 32 case 101 => 32 case 102 => 32 case 103 => 32
    case 104 => 32 case 105 => 32 case 106 => 32 case 107 => 32 case 108 => 32 case 109 => 32
    case 110 => 32 case 111 => 32 case 112 => 32 case 113 => 32 case 114 => 32 case 115 => 32
    case 116 => 32 case 117 => 32 case 118 => 32 case 119 => 32 case 120 => 32 case 121 => 32
    case 122 => 32 case 123 => 26 case 124 => 25 case 125 => 26 case 126 => 27 case 127 => 34
    case _ => 34
  }

  // The table holds the class of every ASCII character and the slot of every special one.
  lemma AsciiMapMeaning(c: char)
    requires c as int < 128
    ensures AsciiMap(c as int) == match ClassOf(c)
      case Letter => LETTER_SLOT
      case Digit => DIGIT_SLOT
      case NonReadable => NON_READABLE_SLOT
      case Space => SPACE_SLOT
      case Special => SlotOf(c)
      case Unicode => 0
  {
  }

  // The scan as a fold: counters, flags, and what is remembered of the previous character.
  datatype Counters = Counters(
    digits: nat, letters: nat, spaces: nat, specials: nat, nonReadables: nat, unicodes: nat,
    sequences: nat, seqPrevType: Option<Class>)

  datatype Scan = Scan(counters: Counters, flags: nat, unicodeFlags: seq<nat>, previous: Option<char>)

  function Bump(k: Counters, cls: Class): Counters {
    var n := match cls
      case Digit => k.(digits := k.digits + 1)
      case Letter => k.(letters := k.letters + 1)
      case Space => k.(spaces := k.spaces + 1)
      case Special => k.(specials := k.specials + 1)
      case NonReadable => k.(nonReadables := k.nonReadables + 1)
      case Unicode => k.(unicodes := k.unicodes + 1);
    if k.seqPrevType == Some(cls) then n
    else n.(sequences := k.sequences + 1, seqPrevType := Some(cls))
  }

  function SetFlags(flags: nat, previous: Option<char>, c: char): nat {
    if ClassOf(c) == Letter then
      if ClosesHex(previous, c) then Or(flags, Pow2(HEX_SLOT)) else flags
    else if ClassOf(c) == Special then
      var word := Or(flags, Pow2(SlotOf(c)));
      if ClosesComment(previous, c) then Or(word, Pow2(COMMENTS_SLOT)) else word
    else flags
  }

  function Padded(flags: seq<nat>, element: nat): (p: seq<nat>)
    ensures |p| == Longer(|flags|, element + 1)
  {
    if element >= |flags| then flags + seq(element - |flags| + 1, _ => 0) else flags
  }

  function SetBlock(flags: seq<nat>, block: nat): seq<nat> {
    var p := Padded(flags, block / 32);
    p[block / 32 := Or(p[block / 32], Pow2(block % 32))]
  }

  function Next(s: Scan, c: char): Scan {
    Scan(
      Bump(s.counters, ClassOf(c)),
      SetFlags(s.flags, s.previous, c),
      if ClassOf(c) == Unicode then SetBlock(s.unicodeFlags, BlockOf(c)) else s.unicodeFlags,
      Some(c))
  }

  function ScanOf(str: string): Scan {
    if str == [] then Scan(Counters(0, 0, 0, 0, 0, 0, 0, None), 0, [], None)
    else Next(ScanOf(str[..|str| - 1]), str[|str| - 1])
  }

  // An ASCII character: its class and slot are looked up in the table.
  method ScanAscii(s: Scan, c: char) returns (seqType: Class, flags: nat)
    requires c as int < 128
    ensures seqType == ClassOf(c)
    ensures flags == SetFlags(s.flags, s.previous, c)
  {
    AsciiMapMeaning(c);
    var zero, asterisk := s.previous == Some('0'), s.previous == Some('*');
    var slash, minus := s.previous == Some('/'), s.previous == Some('-');
    flags := s.flags;
    var asciiType := AsciiMap(c as int);
    if asciiType == LETTER_SLOT {
      seqType := Letter;
      if zero && (c == 'X' || c == 'x') { flags := Or(flags, Pow2(HEX_SLOT)); }
    } else if asciiType == DIGIT_SLOT {
      seqType := Digit;
    } else if asciiType == NON_READABLE_SLOT {
      seqType := NonReadable;
    } else if asciiType == SPACE_SLOT {
      seqType := Space;
    } else {
      seqType := Special;
      flags := Or(flags, Pow2(asciiType));
      if asterisk && c == '/' { flags := Or(flags, Pow2(COMMENTS_SLOT)); }
      if slash && c == '*' { flags := Or(flags, Pow2(COMMENTS_SLOT)); }
      if minus && c == '-' { flags := Or(flags, Pow2(COMMENTS_SLOT)); }
    }
  }

  // A character beyond ASCII: its block's bit, in a slice grown when needed.
  method ScanUnicode(flags0: seq<nat>, c: char) returns (flags: seq<nat>)
    requires ClassOf(c) == Unicode
    ensures flags == SetBlock(flags0, BlockOf(c))
  {
    flags := flags0;
    var block := c as int / 0x80 - 1;
    var blockBit, blockElement := block % 0x20, block / 0x20;
    if blockElement >= |flags| {
      flags := flags + seq(blockElement - |flags| + 1, _ => 0);
    }
    flags := flags[blockElement := Or(flags[blockElement], Pow2(blockBit))];
  }

  // The counter of the class, and a new sequence when the class changes.
  method Count(k0: Counters, seqType: Class) returns (k: Counters)
    ensures k == Bump(k0, seqType)
  {
    match seqType {
      case Letter => k := k0.(letters := k0.letters + 1);
      case Digit => k := k0.(digits := k0.digits + 1);
      case NonReadable => k := k0.(nonReadables := k0.nonReadables + 1);
      case Space => k := k0.(spaces := k0.spaces + 1);
      case Special => k := k0.(specials := k0.specials + 1);
      case Unicode => k := k0.(unicodes := k0.unicodes + 1);
    }
    if Some(seqType) != k.seqPrevType {
      k := k.(sequences := k.sequences + 1, seqPrevType := Some(seqType));
    }
  }

  // The counters are stored on the limit scale.
  method Store(str: string, scan: Scan) returns (profile: Profile)
    requires scan == ScanOf(str)
    ensures profile == ProfileOf(str)
  {
    ScanMeaning(str);
    var k := scan.counters;
    var spaces := Limit.Profile(k.spaces);
    var unicodes := Limit.Profile(k.unicodes);
    var nonReadables := Limit.Profile(k.nonReadables);
    var digits := Limit.Profile(k.digits);
    var letters := Limit.Profile(k.letters);
    var specials := Limit.Profile(k.specials);
    var sequences := Limit.Profile(k.sequences);
    profile := Profile(digits, letters, spaces, specials, nonReadables, unicodes, sequences,
      scan.flags, scan.unicodeFlags);
  }

  // One turn of the scan loop.
  method ScanCharacter(scan: Scan, c: char) returns (next: Scan)
    ensures next == Next(scan, c)
  {
    hide Bump, SetFlags, SetBlock;
    var seqType, flags, unicodeFlags := Unicode, scan.flags, scan.unicodeFlags;
    if c as int < 128 {
      seqType, flags := ScanAscii(scan, c);
    } else {
      unicodeFlags := ScanUnicode(scan.unicodeFlags, c);
      NoFlags(scan.flags, scan.previous, c);
    }
    var counters := Count(scan.counters, seqType);
    next := Scan(counters, flags, unicodeFlags, Some(c));
  }

  lemma NoFlags(flags: nat, previous: Option<char>, c: char)
    requires ClassOf(c) == Unicode
    ensures SetFlags(flags, previous, c) == flags
  {
  }

  // SimpleValProfile.Profile
  method ProfileString(str: string) returns (profile: Profile)
    ensures profile == ProfileOf(str)
  {
    hide Next, ProfileOf;
    var scan := Scan(Counters(0, 0, 0, 0, 0, 0, 0, None), 0, [], None);
    for i := 0 to |str|
      invariant scan == ScanOf(str[..i])
    {
      assert str[..i + 1] == str[..i] + [str[i]];
      ScanStep(str[..i], str[i]);
      scan := ScanCharacter(scan, str[i]);
    }
    assert str[..|str|] == str;
    profile := Store(str, scan);
  }

  lemma ScanStep(s: string, c: char)
    ensures ScanOf(s + [c]) == Next(ScanOf(s), c)
  {
    assert (s + [c])[..|s|] == s;
  }

  // ---------- What the fold computes ----------

  predicate Counted(str: string, k: Counters) {
    && k.digits == |Positions(str, Digit)|
    && k.letters == |Positions(str, Letter)|
    && k.spaces == |Positions(str, Space)|
    && k.specials == |Positions(str, Special)|
    && k.nonReadables == |Positions(str, NonReadable)|
    && k.unicodes == |Positions(str, Unicode)|
    && k.sequences == |RunStarts(str)|
    && k.seqPrevType == if str == [] then None else Some(ClassOf(str[|str| - 1]))
  }

  lemma CountedStep(s: string, c: char, k: Counters)
    requires Counted(s, k)
    ensures Counted(s + [c], Bump(k, ClassOf(c)))
  {
    PositionsStep(s, c, Digit);
    PositionsStep(s, c, Letter);
    PositionsStep(s, c, Space);
    PositionsStep(s, c, Special);
    PositionsStep(s, c, NonReadable);
    PositionsStep(s, c, Unicode);
    RunStartsStep(s, c);
  }

  // The scan counts, flags and marks blocks as described.
  lemma {:induction false} ScanMeaning(str: string)
    ensures Counted(str, ScanOf(str).counters)
    ensures ScanOf(str).flags == FlagWord(str)
    ensures ScanOf(str).unicodeFlags == BlockFlags(str)
    ensures ScanOf(str).previous == Last(str)
  {
    hide ClassOf, Bump, Counted, FlagWord, SetFlags, BlockWord;
    if str == [] {
      EmptyMeaning();
    } else {
      var s, c := str[..|str| - 1], str[|str| - 1];
      assert str == s + [c];
      ScanMeaning(s);
      ScanStep(s, c);
      CountedStep(s, c, ScanOf(s).counters);
      FlagWordStep(s, c);
      if ClassOf(c) == Unicode {
        BlockFlagsStep(s, c, Padded(BlockFlags(s), BlockOf(c) / 32));
      } else {
        BlockFlagsSame(s, c);
      }
    }
  }

  lemma EmptyMeaning()
    ensures Counted([], Counters(0, 0, 0, 0, 0, 0, 0, None)) && FlagWord([]) == 0 && BlockFlags([]) == []
  {
    FromEmpty(32);
    assert FlagSet([]) == {};
  }

  lemma FlagWordStep(s: string, c: char)
    ensures FlagWord(s + [c]) == SetFlags(FlagWord(s), Last(s), c)
  {
    hide FlagSet, FromSet, Pow2, Or, Bit;
    var f := FlagSet(s);
    FlagSetStep(s, c);
    if ClosesHex(Last(s), c) {
      SetBit(f, FlagSet(s + [c]), HEX_SLOT);
    } else if ClosesComment(Last(s), c) {
      SetBit(f, f + {SlotOf(c)}, SlotOf(c));
      SetBit(f + {SlotOf(c)}, FlagSet(s + [c]), COMMENTS_SLOT);
    } else if ClassOf(c) == Special {
      SetBit(f, FlagSet(s + [c]), SlotOf(c));
    } else {
      assert FlagSet(s + [c]) == f;
    }
  }

  lemma BlockFlagsSame(s: string, c: char)
    requires ClassOf(c) != Unicode
    ensures BlockFlags(s + [c]) == BlockFlags(s)
  {
    assert (s + [c])[..|s|] == s;
    forall j: nat | j < BlockWords(s) ensures BlockWord(s + [c], j) == BlockWord(s, j) {
      BlockSetStep(s, c, j);
      assert BlockSet(s + [c], j) == BlockSet(s, j);
    }
  }

  lemma BlockFlagsStep(s: string, c: char, padded: seq<nat>)
    requires ClassOf(c) == Unicode
    requires |padded| == Longer(BlockWords(s), BlockOf(c) / 32 + 1)
    requires forall j: nat | j < |padded| :: padded[j] == if j < BlockWords(s) then BlockWord(s, j) else 0
    ensures var e := BlockOf(c) / 32;
      BlockFlags(s + [c]) == padded[e := Or(padded[e], Pow2(BlockOf(c) % 32))]
  {
    var t := s + [c];
    assert t[..|s|] == s;
    var e, b := BlockOf(c) / 32, BlockOf(c) % 32;
    forall j: nat | j < |padded|
      ensures BlockWord(t, j) == padded[e := Or(padded[e], Pow2(b))][j]
    {
      if j >= BlockWords(s) { BlockWordEmpty(s, j); }
      BlockSetStep(s, c, j);
      if j == e {
        SetBit(BlockSet(s, j), BlockSet(t, j), b);
      } else {
        assert BlockSet(t, j) == BlockSet(s, j);
      }
    }
  }
}
