// pod.go: the remote addresses of the connection tables in /proc/net.
module ProcNet {
  import opened Wrappers
  import opened Bits
  import opened IpSet

  const NEWLINE: Byte := 0xA
  const COLON: Byte := 0x3A

  // ---------- Searching ----------

  // The first position of target, or -1.
  function Find(data: seq<Byte>, target: Byte): (i: int)
    ensures -1 <= i < |data|
    ensures i >= 0 ==> data[i] == target && target !in data[..i]
    ensures i < 0 ==> target !in data
  {
    if data == [] then -1
    else if data[0] == target then 0
    else
      var i := Find(data[1..], target);
      assert data == [data[0]] + data[1..];
      if i < 0 then -1 else (assert data[..i + 1] == [data[0]] + data[1..][..i]; i + 1)
  }

  lemma FindUnique(before: seq<Byte>, target: Byte, after: seq<Byte>)
    requires target !in before
    ensures var data := before + [target] + after;
      Find(data, target) == |before| && data[Find(data, target) + 1..] == after
  {
    var data := before + [target] + after;
    var i := Find(data, target);
    assert data[|before|] == target && data[..|before|] == before;
    assert forall k | 0 <= k < i :: data[..i][k] == data[k] != target;
    assert i == |before|;
  }

  method FindByte(data: seq<Byte>, target: Byte) returns (i: int)
    ensures i == Find(data, target)
  {
    for k := 0 to |data|
      invariant target !in data[..k]
    {
      if data[k] == target {
        assert data == data[..k] + [target] + data[k + 1..];
        FindUnique(data[..k], target, data[k + 1..]);
        return k;
      }
      assert data[..k + 1] == data[..k] + [data[k]];
    }
    assert data[..|data|] == data;
    i := -1;
  }

  // ---------- Addresses in hexadecimal ----------

  // The value of a hexadecimal digit, in either case.
  function Digit(c: Byte): (d: Option<nat>)
    ensures d.Some? ==> d.value < 16
  {
    if 0x30 <= c <= 0x39 then Some(c - 0x30)
    else if 0x61 <= c <= 0x66 then Some(c - 0x61 + 10)
    else if 0x41 <= c <= 0x46 then Some(c - 0x41 + 10)
    else None
  }

  // The digits are those of both cases, in order.
  lemma DigitsExactly(c: Byte, d: nat)
    requires d < 16
    ensures Digit(c) == Some(d) <==> c == "0123456789abcdef"[d] as int || c == "0123456789ABCDEF"[d] as int
  {
  }

  predicate AllDigits(text: seq<Byte>) {
    forall c | c in text :: Digit(c).Some?
  }

  function Value(text: seq<Byte>): nat
    requires AllDigits(text)
  {
    if text == [] then 0
    else Value(text[..|text| - 1]) * 16 + Digit(text[|text| - 1]).value
  }

  // strconv.ParseUint(text, 16, 32) of at most eight characters
  method ParseUint(text: seq<Byte>) returns (v: Option<nat>)
    requires text != []
    ensures v == if AllDigits(text) then Some(Value(text)) else None
  {
    var n := 0;
    for i := 0 to |text|
      invariant AllDigits(text[..i]) && n == Value(text[..i])
    {
      var d := Digit(text[i]);
      assert text[i] in text;
      if d.None? { return None; }
      assert text[..i + 1][..i] == text[..i];
      n := n * 16 + d.value;
    }
    assert text[..|text|] == text;
    v := Some(n);
  }

  // binary.LittleEndian.PutUint32
  function LittleEndian(v: nat): seq<Byte> {
    [v % 256, v / 256 % 256, v / 256 / 256 % 256, v / 256 / 256 / 256 % 256]
  }

  // The value of two digits.
  function Pair(text: seq<Byte>, i: nat): (p: nat)
    requires AllDigits(text) && i + 1 < |text|
    ensures p < 256
  {
    Digit(text[i]).value * 16 + Digit(text[i + 1]).value
  }

  // Four bytes are written as eight digits, the last byte first.
  ghost predicate SpellsGroup(text: seq<Byte>, group: seq<Byte>) {
    && |text| == 8 && AllDigits(text)
    && group == [Pair(text, 6), Pair(text, 4), Pair(text, 2), Pair(text, 0)]
  }

  // An address is written group by group.
  ghost predicate Spells(text: seq<Byte>, ip: seq<Byte>) {
    |text| == 2 * |ip| && |ip| % 4 == 0 && SpellsGroups(text, ip, |ip| / 4)
  }

  ghost predicate SpellsGroups(text: seq<Byte>, ip: seq<Byte>, n: nat)
    requires 8 * n <= |text| && 4 * n <= |ip|
  {
    forall g | 0 <= g < n :: SpellsGroup(text[8 * g..8 * g + 8], ip[4 * g..4 * g + 4])
  }

  // The address that a text spells.
  ghost function Spelled(text: seq<Byte>): Option<Address> {
    if ip: Address :| Spells(text, ip) then Some(ip) else None
  }

  lemma ValueOfEight(text: seq<Byte>)
    requires |text| == 8 && AllDigits(text)
    ensures SpellsGroup(text, LittleEndian(Value(text)))
  {
    hide Value, LittleEndian, Digit;
    var a, b, c := text[..6], text[..4], text[..2];
    assert a[..4] == b && b[..2] == c && c[..0] == [] && Value([]) == 0 by { EmptyValue(); }
    ValuePair(text);
    ValuePair(a);
    ValuePair(b);
    ValuePair(c);
    Bytes(Pair(text, 0), Pair(text, 2), Pair(text, 4), Pair(text, 6));
  }

  lemma EmptyValue()
    ensures Value([]) == 0
  {
  }

  lemma ValuePair(text: seq<Byte>)
    requires |text| >= 2 && AllDigits(text)
    ensures Value(text) == Value(text[..|text| - 2]) * 256 + Pair(text, |text| - 2)
  {
    assert text[..|text| - 1][..|text| - 2] == text[..|text| - 2];
  }

  lemma Bytes(a: nat, b: nat, c: nat, d: nat)
    requires a < 256 && b < 256 && c < 256 && d < 256
    ensures LittleEndian(((a * 256 + b) * 256 + c) * 256 + d) == [d, c, b, a]
  {
    var v := ((a * 256 + b) * 256 + c) * 256 + d;
    assert v / 256 == (a * 256 + b) * 256 + c;
    assert v / 256 / 256 == a * 256 + b;
  }

  lemma SpellsGroupUnique(text: seq<Byte>, g: seq<Byte>, h: seq<Byte>)
    requires SpellsGroup(text, g) && SpellsGroup(text, h)
    ensures g == h
  {
  }

  lemma SpellsUnique(text: seq<Byte>, a: Address, b: Address)
    requires Spells(text, a) && Spells(text, b)
    ensures a == b
  {
    hide SpellsGroup;
    forall k | 0 <= k < |a| ensures a[k] == b[k] {
      var g := k / 4;
      SpellsGroupUnique(text[8 * g..8 * g + 8], a[4 * g..4 * g + 4], b[4 * g..4 * g + 4]);
      assert a[k] == a[4 * g..4 * g + 4][k - 4 * g] && b[k] == b[4 * g..4 * g + 4][k - 4 * g];
    }
  }

  // The address part of nextRemoteIp: four groups at most, each parsed and stored in place.
  method ParseAddress(text: seq<Byte>) returns (r: Option<Address>)
    ensures r == Spelled(text)
  {
    if |text| != 8 && |text| != 32 {
      SpelledOnly(text);
      return None;
    }
    var length := |text| / 2;
    var ip := new Byte[length](i => 0);
    var rest := text;
    for g := 0 to length / 4
      invariant rest == text[8 * g..]
      invariant SpellsGroups(text, ip[..], g)
    {
      hide SpellsGroup, SpellsGroups, Value, AllDigits, Spelled, LittleEndian;
      var v := ParseUint(rest[0..8]);
      assert rest[0..8] == text[8 * g..8 * g + 8];
      if v.None? {
        DigitsThroughout(text, g);
        return None;
      }
      ghost var before := ip[..];
      PutUint32(ip, 4 * g, v.value);
      ValueOfEight(rest[0..8]);
      OneMoreGroup(text, before, ip[..], g);
      rest := rest[8..];
    }
    SpelledIs(text, ip[..]);
    r := Some(ip[..]);
  }

  lemma OneMoreGroup(text: seq<Byte>, before: seq<Byte>, after: seq<Byte>, g: nat)
    requires 8 * g + 8 <= |text| && 4 * g + 4 <= |before| == |after|
    requires SpellsGroups(text, before, g) && after[..4 * g] == before[..4 * g]
    requires SpellsGroup(text[8 * g..8 * g + 8], after[4 * g..4 * g + 4])
    ensures SpellsGroups(text, after, g + 1)
  {
    hide SpellsGroup;
    forall k | 0 <= k < g ensures after[4 * k..4 * k + 4] == before[4 * k..4 * k + 4] {
      PartOfPrefix(after, before, 4 * g, 4 * k, 4 * k + 4);
    }
  }

  lemma PartOfPrefix(a: seq<Byte>, b: seq<Byte>, n: nat, lo: nat, hi: nat)
    requires lo <= hi <= n <= |a| && n <= |b| && a[..n] == b[..n]
    ensures a[lo..hi] == b[lo..hi]
  {
    assert a[lo..hi] == a[..n][lo..hi] && b[lo..hi] == b[..n][lo..hi];
  }

  method PutUint32(ip: array<Byte>, at: nat, v: nat)
    requires at + 4 <= ip.Length
    modifies ip
    ensures ip[at..at + 4] == LittleEndian(v)
    ensures ip[..at] == old(ip[..at]) && ip[at + 4..] == old(ip[at + 4..])
  {
    ip[at], ip[at + 1], ip[at + 2], ip[at + 3] :=
      v % 256, v / 256 % 256, v / 256 / 256 % 256, v / 256 / 256 / 256 % 256;
  }

  lemma SpelledIs(text: seq<Byte>, ip: Address)
    requires Spells(text, ip)
    ensures Spelled(text) == Some(ip)
  {
    SpellsUnique(text, ip, Spelled(text).value);
  }

  lemma SpelledOnly(text: seq<Byte>)
    ensures Spelled(text).Some? ==> |text| == 8 || |text| == 32
  {
  }

  lemma DigitsThroughout(text: seq<Byte>, g: nat)
    requires 8 * g + 8 <= |text|
    ensures Spelled(text).Some? ==> AllDigits(text[8 * g..8 * g + 8])
  {
    if Spelled(text).Some? {
      var ip := Spelled(text).value;
      assert SpellsGroup(text[8 * g..8 * g + 8], ip[4 * g..4 * g + 4]);
    }
  }

  // ---------- Rows ----------

  // One round of the NextLine loop: the data is used up, or what is left of it, with or
  // without an address.
  datatype Round = End | Skip(rest: seq<Byte>) | Found(ip: Address, rest: seq<Byte>)

  // b ends a.
  predicate EndsWith(a: seq<Byte>, b: seq<Byte>) {
    |b| <= |a| && b == a[|a| - |b|..]
  }

  // skip stands for the unspecified, loopback and private addresses.
  ghost function Step(data: seq<Byte>, skip: Address -> bool): (r: Round)
    ensures !r.End? ==> |r.rest| < |data| && EndsWith(data, r.rest)
  {
    var i := Find(data, NEWLINE);
    if i < 0 then End else ReadLine(data[i + 1..], skip)
  }

  // After a newline: past two colons.
  ghost function ReadLine(line: seq<Byte>, skip: Address -> bool): (r: Round)
    ensures !r.End? && EndsWith(line, r.rest)
  {
    var first := Find(line, COLON);
    if first < 0 then Skip(line)
    else
      var local := line[first + 1..];
      var second := Find(local, COLON);
      if second < 0 then Skip(local) else ReadField(local[second + 1..], skip)
  }

  // After the second colon: five characters, the address, and a third colon.
  ghost function ReadField(field: seq<Byte>, skip: Address -> bool): (r: Round)
    ensures !r.End? && EndsWith(field, r.rest)
  {
    var third := Find(field, COLON);
    if third < 13 then Skip(field)
    else
      var ip := Spelled(field[5..third]);
      if ip.None? || skip(ip.value) then Skip(field[third + 1..])
      else Found(ip.value, field[third + 1..])
  }

  // nextRemoteIp: the next address and the data after it.
  ghost function Next(data: seq<Byte>, skip: Address -> bool): (r: Option<(Address, seq<Byte>)>)
    ensures r.Some? ==> |r.value.1| < |data| && EndsWith(data, r.value.1)
    decreases |data|
  {
    match Step(data, skip)
    case End => None
    case Skip(rest) => Next(rest, skip)
    case Found(ip, rest) => Some((ip, rest))
  }

  // The addresses that calling nextRemoteIp over and over yields.
  ghost function All(data: seq<Byte>, skip: Address -> bool): seq<Address>
    decreases |data|
  {
    match Next(data, skip)
    case None => []
    case Some((ip, rest)) => [ip] + All(rest, skip)
  }

  method NextRemoteIp(input: seq<Byte>, skip: Address -> bool) returns (r: Option<(Address, seq<Byte>)>)
    ensures r == Next(input, skip)
  {
    hide Spelled, Find;
    var data := input;
    while true
      invariant Next(data, skip) == Next(input, skip)
      decreases |data|
    {
      var i := FindByte(data, NEWLINE);
      if i < 0 {
        return None;
      }
      ghost var start := data;
      data := data[i + 1..];
      i := FindByte(data, COLON);
      if i < 0 {
        assert Step(start, skip) == Skip(data);
        continue;
      }
      data := data[i + 1..];
      i := FindByte(data, COLON);
      if i < 0 {
        assert Step(start, skip) == Skip(data);
        continue;
      }
      data := data[i + 1..];
      i := FindByte(data, COLON);
      if i < 13 {
        assert Step(start, skip) == Skip(data);
        continue;
      }
      var text := data[5..i];
      data := data[i + 1..];
      var ip := ParseAddress(text);
      if ip.None? || skip(ip.value) {
        assert Step(start, skip) == Skip(data);
        continue;
      }
      assert Step(start, skip) == Found(ip.value, data);
      return Some((ip.value, data));
    }
  }

  // IpNetFromProc, on what the file holds; None stands for a file that cannot be read.
  method IpNetFromProc(file: Option<seq<Byte>>, skip: Address -> bool) returns (ips: seq<Address>)
    ensures file.None? ==> ips == []
    ensures file.Some? ==> ips == Listed([], All(file.value, skip))
  {
    hide Gathered, Next;
    ips := [];
    if file.None? {
      return;
    }
    var names: set<Address> := {};
    ghost var yielded: seq<Address> := [];
    GatherFirst(file.value, skip);
    var next := NextRemoteIp(file.value, skip);
    while next.Some?
      invariant Gathered(file.value, skip, yielded, ips, names, next)
      decreases if next.Some? then |next.value.1| + 1 else 0
    {
      GatherMore(file.value, skip, yielded, ips, names, next);
      var (ip, rest) := next.value;
      yielded := yielded + [ip];
      var name := Canon(ip);
      if name !in names {
        names := names + {name};
        ips := ips + [ip];
      }
      next := NextRemoteIp(rest, skip);
    }
    GatherLast(file.value, skip, yielded, ips, names);
  }

  // What the loop of IpNetFromProc keeps: yielded is what the calls so far have returned.
  ghost predicate Gathered(data: seq<Byte>, skip: Address -> bool, yielded: seq<Address>, ips: seq<Address>,
                           names: set<Address>, next: Option<(Address, seq<Byte>)>) {
    ips == Listed([], yielded) && names == Names(ips) && All(data, skip) == yielded + Rest(next, skip)
  }

  lemma GatherFirst(data: seq<Byte>, skip: Address -> bool)
    ensures Gathered(data, skip, [], [], {}, Next(data, skip))
  {
    hide Next;
    Nothing();
    AllIsRest(data, skip);
  }

  lemma GatherMore(data: seq<Byte>, skip: Address -> bool, yielded: seq<Address>, ips: seq<Address>,
                   names: set<Address>, next: Option<(Address, seq<Byte>)>)
    requires Gathered(data, skip, yielded, ips, names, next) && next.Some?
    ensures var (ip, rest) := next.value;
      var known := Canon(ip) in names;
      Gathered(data, skip, yielded + [ip], if known then ips else ips + [ip],
               if known then names else names + {Canon(ip)}, Next(rest, skip))
  {
    hide Next, All, Canon, Names, Listed;
    var (ip, rest) := next.value;
    AllIsRest(rest, skip);
    ListedStep([], yielded, ip);
    NamesAppend(ips, ip);
    assert yielded + [ip] + All(rest, skip) == yielded + ([ip] + All(rest, skip));
  }

  lemma GatherLast(data: seq<Byte>, skip: Address -> bool, yielded: seq<Address>, ips: seq<Address>,
                   names: set<Address>)
    requires Gathered(data, skip, yielded, ips, names, None)
    ensures ips == Listed([], All(data, skip))
  {
    assert yielded + Rest(None, skip) == yielded;
  }

  ghost function Rest(next: Option<(Address, seq<Byte>)>, skip: Address -> bool): seq<Address> {
    match next
    case None => []
    case Some((ip, rest)) => [ip] + All(rest, skip)
  }

  lemma AllIsRest(data: seq<Byte>, skip: Address -> bool)
    ensures All(data, skip) == Rest(Next(data, skip), skip)
  {
  }

  lemma ListedStep(list: seq<Address>, more: seq<Address>, x: Address)
    ensures Listed(list, more + [x])
         == if Canon(x) in Names(Listed(list, more)) then Listed(list, more) else Listed(list, more) + [x]
  {
    assert (more + [x])[..|more|] == more;
  }

  lemma Nothing()
    ensures Names([]) == {} && Listed([], []) == []
  {
  }

  // ---------- Round trip ----------

  // A row of the table: the slot and the local address each end at a colon; the field between
  // holds the local port, a space and the remote address; the remote port and the rest follow.
  datatype Row = Row(slot: seq<Byte>, local: seq<Byte>, field: seq<Byte>, rest: seq<Byte>)

  ghost predicate WellFormed(row: Row) {
    && 0x3A !in row.slot && 0x3A !in row.local && 0x3A !in row.field
    && 0xA !in row.field && 0xA !in row.rest
  }

  function Render(row: Row): seq<Byte> {
    row.slot + [0x3A] + row.local + [0x3A] + row.field + [0x3A] + row.rest
  }

  function Table(rows: seq<Row>): seq<Byte> {
    if rows == [] then [] else [0xA] + Render(rows[0]) + Table(rows[1..])
  }

  // The remote address of a row, if its field spells one after the port.
  ghost function Remote(row: Row): Option<Address> {
    if |row.field| < 5 then None else Spelled(row.field[5..])
  }

  ghost function Remotes(rows: seq<Row>, skip: Address -> bool): seq<Address> {
    if rows == [] then []
    else
      var ip := Remote(rows[0]);
      (if ip.None? || skip(ip.value) then [] else [ip.value]) + Remotes(rows[1..], skip)
  }

  lemma AllByStep(data: seq<Byte>, skip: Address -> bool)
    ensures All(data, skip) == match Step(data, skip)
                               case End => []
                               case Skip(rest) => All(rest, skip)
                               case Found(ip, rest) => [ip] + All(rest, skip)
  {
    hide Step;
  }

  // What one round makes of a row.
  ghost function RowStep(row: Row, more: seq<Byte>, skip: Address -> bool): Round {
    if |row.field| < 13 then Skip(row.field + [COLON] + (row.rest + more))
    else if Remote(row).None? || skip(Remote(row).value) then Skip(row.rest + more)
    else Found(Remote(row).value, row.rest + more)
  }

  lemma ReadFieldRow(row: Row, more: seq<Byte>, skip: Address -> bool)
    requires WellFormed(row)
    ensures ReadField(row.field + [COLON] + (row.rest + more), skip) == RowStep(row, more, skip)
  {
    hide Find, Spelled;
    var data := row.field + [COLON] + (row.rest + more);
    FindUnique(row.field, COLON, row.rest + more);
    if |row.field| >= 13 {
      assert data[5..|row.field|] == row.field[5..];
    }
  }

  lemma StepRow(before: seq<Byte>, row: Row, more: seq<Byte>, skip: Address -> bool)
    requires NEWLINE !in before && WellFormed(row)
    ensures Step(before + ([NEWLINE] + Render(row) + more), skip) == RowStep(row, more, skip)
  {
    hide Find, ReadField, RowStep;
    var afterLocal := row.field + [COLON] + (row.rest + more);
    var afterSlot := row.local + [COLON] + afterLocal;
    var line := row.slot + [COLON] + afterSlot;
    assert Render(row) + more == line;
    assert before + ([NEWLINE] + Render(row) + more) == before + [NEWLINE] + line;
    FindUnique(before, NEWLINE, line);
    FindUnique(row.slot, COLON, afterSlot);
    FindUnique(row.local, COLON, afterLocal);
    ReadFieldRow(row, more, skip);
  }

  lemma LineWithoutColon(line: seq<Byte>, skip: Address -> bool)
    requires COLON !in line
    ensures ReadLine(line, skip) == Skip(line)
  {
    hide ReadField;
  }

  lemma {:induction false} NoMoreRows(before: seq<Byte>, tail: seq<Byte>, skip: Address -> bool)
    requires NEWLINE !in before && COLON !in tail
    ensures All(before + tail, skip) == []
    decreases |tail|
  {
    hide Spelled, ReadLine, All;
    var data := before + tail;
    AllByStep(data, skip);
    var i := Find(data, NEWLINE);
    if i >= 0 {
      assert i >= |before|;
      var line := tail[i + 1 - |before|..];
      assert data[i + 1..] == line == [] + line;
      LineWithoutColon(line, skip);
      NoMoreRows([], line, skip);
    }
  }

  lemma RowHasNoNewline(row: Row)
    requires WellFormed(row)
    ensures NEWLINE !in row.rest && NEWLINE !in row.field + [COLON] + row.rest
  {
  }

  // Reading a table gives exactly the remote addresses of interest that its rows spell, in
  // order, whatever the header, and whatever trails the last row as long as it has no colon.
  lemma {:induction false} TableRoundTrip(header: seq<Byte>, rows: seq<Row>, tail: seq<Byte>, skip: Address -> bool)
    requires 0xA !in header && 0x3A !in tail && forall row | row in rows :: WellFormed(row)
    ensures All(header + Table(rows) + tail, skip) == Remotes(rows, skip)
    decreases |rows|
  {
    hide Step, Spelled, Render, WellFormed, Table, Remote, All;
    if rows == [] {
      EmptyTable(header, tail);
      NoMoreRows(header, tail, skip);
    } else {
      var row, rest := rows[0], rows[1..];
      var more := Table(rest) + tail;
      TableSplit(header, rows, tail);
      StepRow(header, row, more, skip);
      AllByStep(header + Table(rows) + tail, skip);
      RowHasNoNewline(row);
      if |row.field| < 13 { ShortField(row); }
      var before := if |row.field| < 13 then row.field + [COLON] + row.rest else row.rest;
      Regroup(row.field + [COLON], row.rest, Table(rest), tail);
      TableRoundTrip(before, rest, tail, skip);
    }
  }

  lemma Regroup(a: seq<Byte>, b: seq<Byte>, c: seq<Byte>, d: seq<Byte>)
    ensures a + (b + (c + d)) == a + b + c + d && b + (c + d) == b + c + d
  {
  }

  lemma EmptyTable(header: seq<Byte>, tail: seq<Byte>)
    ensures header + Table([]) + tail == header + tail
  {
  }

  lemma TableSplit(header: seq<Byte>, rows: seq<Row>, tail: seq<Byte>)
    requires rows != []
    ensures header + Table(rows) + tail == header + ([NEWLINE] + Render(rows[0]) + (Table(rows[1..]) + tail))
  {
    hide Render;
  }

  lemma ShortField(row: Row)
    requires |row.field| < 13
    ensures Remote(row).None?
  {
    if |row.field| >= 5 { SpelledOnly(row.field[5..]); }
  }

  // The kernel's way of writing an address: %08X of every group of four bytes.
  function HexDigit(d: nat): (c: Byte)
    requires d < 16
    ensures Digit(c) == Some(d)
  {
    if d < 10 then 0x30 + d else 0x41 + d - 10
  }

  function TwoDigits(b: Byte): seq<Byte> {
    [HexDigit(b / 16), HexDigit(b % 16)]
  }

  function Written(ip: seq<Byte>): (text: seq<Byte>)
    requires |ip| % 4 == 0
    ensures |text| == 2 * |ip|
  {
    if ip == [] then []
    else TwoDigits(ip[3]) + TwoDigits(ip[2]) + TwoDigits(ip[1]) + TwoDigits(ip[0]) + Written(ip[4..])
  }

  lemma WrittenGroup(group: seq<Byte>)
    requires |group| == 4
    ensures SpellsGroup(TwoDigits(group[3]) + TwoDigits(group[2]) + TwoDigits(group[1]) + TwoDigits(group[0]), group)
  {
  }

  lemma {:induction false} WrittenSpells(ip: seq<Byte>)
    requires |ip| % 4 == 0
    ensures Spells(Written(ip), ip)
    decreases |ip|
  {
    hide SpellsGroup, TwoDigits;
    if ip != [] {
      var text, rest := Written(ip), Written(ip[4..]);
      WrittenGroup(ip[..4]);
      WrittenSpells(ip[4..]);
      forall g | 0 <= g < |ip| / 4 ensures SpellsGroup(text[8 * g..8 * g + 8], ip[4 * g..4 * g + 4]) {
        if g == 0 {
          assert text[..8] == TwoDigits(ip[3]) + TwoDigits(ip[2]) + TwoDigits(ip[1]) + TwoDigits(ip[0]);
        } else {
          assert text[8 * g..8 * g + 8] == rest[8 * (g - 1)..8 * (g - 1) + 8];
          assert ip[4 * g..4 * g + 4] == ip[4..][4 * (g - 1)..4 * (g - 1) + 4];
        }
      }
    }
  }

  // A row written by the kernel gives back its remote address.
  lemma RowRoundTrip(row: Row, port: seq<Byte>, ip: Address)
    requires |port| == 5 && row.field == port + Written(ip)
    ensures Remote(row) == Some(ip)
  {
    WrittenSpells(ip);
    assert row.field[5..] == Written(ip);
    SpelledIs(Written(ip), ip);
  }

  // On any input: an address found is of interest, and the input spells it out before a colon
  // after which the search goes on.
  ghost predicate SpelledBefore(data: seq<Byte>, ip: Address, rest: seq<Byte>) {
    exists text: seq<Byte> | Spells(text, ip) :: EndsWith(data, text + [0x3A] + rest)
  }

  lemma FoundInField(field: seq<Byte>, skip: Address -> bool)
    ensures var r := ReadField(field, skip); r.Found? ==> !skip(r.ip) && SpelledBefore(field, r.ip, r.rest)
  {
    hide Spells;
    var third := Find(field, COLON);
    if third >= 13 {
      assert field[5..] == field[5..third] + [COLON] + field[third + 1..];
    }
  }

  lemma FoundInLine(line: seq<Byte>, skip: Address -> bool)
    ensures var r := ReadLine(line, skip); r.Found? ==> !skip(r.ip) && SpelledBefore(line, r.ip, r.rest)
  {
    hide ReadField, SpelledBefore, Find;
    var first := Find(line, COLON);
    if first >= 0 {
      var local := line[first + 1..];
      var second := Find(local, COLON);
      if second >= 0 {
        var field := local[second + 1..];
        FoundInField(field, skip);
        var r := ReadField(field, skip);
        if r.Found? {
          SpelledEarlier(local, field, r.ip, r.rest);
          SpelledEarlier(line, local, r.ip, r.rest);
        }
      }
    }
  }

  lemma FoundIsSpelled(data: seq<Byte>, skip: Address -> bool)
    ensures var r := Step(data, skip); r.Found? ==> !skip(r.ip) && SpelledBefore(data, r.ip, r.rest)
  {
    hide ReadLine, SpelledBefore, Find;
    var i := Find(data, NEWLINE);
    if i >= 0 {
      var line := data[i + 1..];
      FoundInLine(line, skip);
      var r := ReadLine(line, skip);
      if r.Found? { SpelledEarlier(data, line, r.ip, r.rest); }
    }
  }

  // What nextRemoteIp returns, on any input.
  lemma {:induction false} NextIsSpelled(data: seq<Byte>, skip: Address -> bool)
    ensures var r := Next(data, skip); r.Some? ==> !skip(r.value.0) && SpelledBefore(data, r.value.0, r.value.1)
    decreases |data|
  {
    hide Step, SpelledBefore, EndsWith;
    FoundIsSpelled(data, skip);
    match Step(data, skip)
    case Skip(rest) =>
      NextIsSpelled(rest, skip);
      var r := Next(data, skip);
      if r.Some? { SpelledEarlier(data, rest, r.value.0, r.value.1); }
    case _ =>
  }

  lemma SpelledEarlier(data: seq<Byte>, field: seq<Byte>, ip: Address, rest: seq<Byte>)
    requires EndsWith(data, field) && SpelledBefore(field, ip, rest)
    ensures SpelledBefore(data, ip, rest)
  {
    hide Spells;
    var text: seq<Byte> :| Spells(text, ip) && EndsWith(field, text + [COLON] + rest);
    assert EndsWith(data, text + [COLON] + rest);
  }
}
