// iodup.go: one source is read into a ring of buffers and slices of these buffers are handed
// to several readers over bounded channels. The program is modelled as the steps of its
// goroutine and of its readers, which may interleave in any way.
module Iodup {
  import opened Wrappers
  import opened Bits
  import opened Modulo

  // bufs[buf][lo..hi]
  datatype Slice = Slice(buf: nat, lo: nat, hi: nat)

  // One call to src.Read: what the whole buffer holds afterwards, how many bytes of it count,
  // and whether an error (such as EOF) came with them.
  datatype Fill = Fill(content: seq<Byte>, n: nat, last: bool)

  // A reader: the slice it is consuming and its channel. received and got are history: how
  // many slices it took from the channel and all bytes it copied out.
  datatype Out = Out(outBuf: Option<Slice>, bufChan: seq<Slice>, closed: bool, received: nat, got: seq<Byte>)

  // Where the goroutine is: about to read, sending the n bytes it read to output next,
  // closing channel next, or finished.
  datatype Pc = Reading | Forwarding(n: nat, last: bool, next: nat) | Closing(next: nat) | Done

  // src holds the reads still to come; chunks is history: the non-empty reads so far.
  datatype State = State(
    bufs: seq<seq<Byte>>,
    inBufIndex: nat,
    outs: seq<Out>,
    pc: Pc,
    src: seq<Fill>,
    chunks: seq<seq<Byte>>)

  datatype Event =
    | ReadSrc                    // readFromSrc returns
    | Send                       // forwardToOut puts the slice in the next channel
    | Advance                    // the next buffer becomes the input buffer
    | CloseNext                  // the next channel is closed
    | Receive(j: nat)            // Read of output j takes a slice from its channel
    | Copy(j: nat, m: nat)       // Read of output j copies to a destination of m bytes

  // NewIoDups: the parameters and their defaults
  const NUM_BUFS := 128
  const SIZE_BUF := 8192

  datatype Params = Params(numOutputs: nat, numBufs: nat, sizeBuf: nat)

  // More than three parameters panic.
  function NewIoDups(args: seq<nat>): (r: Option<Params>)
    ensures r.Some? <==> |args| <= 3
    ensures r.Some? ==> r.value.numOutputs >= 2 && r.value.numBufs >= 3 && r.value.sizeBuf >= 1
    ensures |args| <= 1 ==> r.value.numBufs == 128
    ensures |args| <= 2 ==> r.value.sizeBuf == 8192
    ensures r.Some? && |args| >= 1 && args[0] >= 2 ==> r.value.numOutputs == args[0]
    ensures r.Some? && |args| >= 2 ==> r.value.numBufs == if args[1] < 3 then 128 else args[1]
    ensures |args| == 3 && args[2] >= 1 ==> r.value.sizeBuf == args[2]
    ensures r.Some? && (|args| == 0 || args[0] < 2) ==> r.value.numOutputs == 2
    ensures |args| == 3 && args[2] < 1 ==> r.value.sizeBuf == 1
  {
    if |args| > 3 then None
    else
      var outputs := if |args| == 0 || args[0] < 2 then 2 else args[0];
      var bufs := if |args| < 2 || args[1] < 3 then NUM_BUFS else args[1];
      var size := if |args| < 3 then SIZE_BUF else if args[2] < 1 then 1 else args[2];
      Some(Params(outputs, bufs, size))
  }

  function Len(s: Option<Slice>): int {
    if s.None? then 0 else s.value.hi - s.value.lo
  }

  // Channels are made with room for numBufs-2 slices.
  function Room(s: State): int {
    |s.bufs| - 2
  }

  predicate Enabled(s: State, e: Event) {
    match e
    case ReadSrc => s.pc.Reading? && s.inBufIndex < |s.bufs|
    case Send => s.pc.Forwarding? && s.pc.next < |s.outs| && |s.outs[s.pc.next].bufChan| < Room(s)
    case Advance => s.pc.Forwarding? && s.pc.next == |s.outs| && |s.bufs| > 0
    case CloseNext => s.pc.Closing? && s.pc.next < |s.outs|
    case Receive(j) => j < |s.outs| && Len(s.outs[j].outBuf) == 0 && s.outs[j].bufChan != []
    case Copy(j, m) => j < |s.outs| && (s.outs[j].outBuf.Some? ==> SliceOk(s, s.outs[j].outBuf.value))
  }

  predicate SliceOk(s: State, x: Slice) {
    x.buf < |s.bufs| && x.lo <= x.hi <= |s.bufs[x.buf]|
  }

  function BytesOf(s: State, x: Slice): seq<Byte>
    requires SliceOk(s, x)
  {
    s.bufs[x.buf][x.lo..x.hi]
  }

  // The channels are closed one after the other; then the goroutine ends.
  function CloseFrom(s: State, next: nat): Pc {
    if next < |s.outs| then Closing(next) else Done
  }

  function Next(s: State, e: Event): State
    requires Enabled(s, e)
  {
    match e
    case ReadSrc =>
      if s.src == [] then s.(pc := CloseFrom(s, 0))
      else
        var f := s.src[0];
        var t := s.(bufs := s.bufs[s.inBufIndex := f.content], src := s.src[1..]);
        if 0 < f.n <= |f.content| then
          t.(pc := Forwarding(f.n, f.last, 0), chunks := s.chunks + [f.content[..f.n]])
        else if f.last then t.(pc := CloseFrom(s, 0))
        else t
    case Send =>
      var j := s.pc.next;
      var o := s.outs[j];
      s.(outs := s.outs[j := o.(bufChan := o.bufChan + [Slice(s.inBufIndex, 0, s.pc.n)])],
         pc := s.pc.(next := j + 1))
    case Advance =>
      s.(inBufIndex := (s.inBufIndex + 1) % |s.bufs|,
         pc := if s.pc.last then CloseFrom(s, 0) else Reading)
    case CloseNext =>
      var j := s.pc.next;
      s.(outs := s.outs[j := s.outs[j].(closed := true)], pc := CloseFrom(s, j + 1))
    case Receive(j) =>
      var o := s.outs[j];
      s.(outs := s.outs[j := o.(outBuf := Some(o.bufChan[0]), bufChan := o.bufChan[1..], received := o.received + 1)])
    case Copy(j, m) =>
      var o := s.outs[j];
      if o.outBuf.None? then s
      else
        var x := o.outBuf.value;
        var n := if m < x.hi - x.lo then m else x.hi - x.lo;
        s.(outs := s.outs[j := o.(outBuf := Some(x.(lo := x.lo + n)), got := o.got + BytesOf(s, x)[..n])])
  }

  // Read of output j returns EOF: its slice is used up, its channel is closed and drained.
  predicate Eof(s: State, j: nat)
    requires j < |s.outs|
  {
    Len(s.outs[j].outBuf) == 0 && s.outs[j].bufChan == [] && s.outs[j].closed
  }

  // ---------- The invariant ----------

  function Flat(chunks: seq<seq<Byte>>): seq<Byte> {
    if chunks == [] then [] else Flat(chunks[..|chunks| - 1]) + chunks[|chunks| - 1]
  }

  // The bytes the source delivers: up to the read that carries an error.
  function Data(src: seq<Fill>): seq<Byte>
    requires forall i | 0 <= i < |src| :: src[i].n <= |src[i].content|
  {
    if src == [] then []
    else src[0].content[..src[0].n] + (if src[0].last then [] else Data(src[1..]))
  }

  // The bytes not yet read.
  function Pending(s: State): seq<Byte>
    requires forall i | 0 <= i < |s.src| :: s.src[i].n <= |s.src[i].content|
  {
    if s.pc.Reading? || (s.pc.Forwarding? && !s.pc.last) then Data(s.src) else []
  }

  predicate SrcOk(src: seq<Fill>, size: nat) {
    forall i | 0 <= i < |src| :: |src[i].content| == size && src[i].n <= size
  }

  // The number of chunks whose forwarding is complete.
  function Forwarded(s: State): int {
    if s.pc.Forwarding? then |s.chunks| - 1 else |s.chunks|
  }

  // The number of chunks sent to output j.
  function Sent(s: State, j: nat): int {
    if s.pc.Forwarding? && j >= s.pc.next then |s.chunks| - 1 else |s.chunks|
  }

  // Buffer c % numBufs still holds chunk c.
  predicate Holds(s: State, c: nat)
    requires |s.bufs| > 0 && c < |s.chunks|
  {
    |s.chunks[c]| <= |s.bufs[c % |s.bufs|]| && s.bufs[c % |s.bufs|][..|s.chunks[c]|] == s.chunks[c]
  }

  // The slice that carries chunk c, from offset lo on.
  function SliceOf(s: State, c: nat, lo: nat): Slice
    requires |s.bufs| > 0 && c < |s.chunks|
  {
    Slice(c % |s.bufs|, lo, |s.chunks[c]|)
  }

  // All chunks from number first on are still in their buffers.
  predicate Live(s: State, first: int)
    requires |s.bufs| > 0
  {
    forall c: nat | first <= c < |s.chunks| :: Holds(s, c)
  }

  // The slices in the channel carry the consecutive chunks not yet received.
  predicate Queued(s: State, o: Out, sent: int)
    requires |s.bufs| > 0
  {
    && 0 <= o.received <= sent <= |s.chunks|
    && |o.bufChan| == sent - o.received <= Room(s)
    && (forall k | 0 <= k < |o.bufChan| :: o.bufChan[k] == SliceOf(s, o.received + k, 0))
  }

  // The current slice carries the chunk received last, and everything before it was copied out.
  predicate Consumed(s: State, o: Out)
    requires |s.bufs| > 0 && o.received <= |s.chunks|
  {
    if o.received == 0 then o.outBuf == None && o.got == []
    else
      && o.outBuf.Some?
      && o.outBuf.value.lo <= |s.chunks[o.received - 1]|
      && o.outBuf.value == SliceOf(s, o.received - 1, o.outBuf.value.lo)
      && o.got == Flat(s.chunks[..o.received - 1]) + s.chunks[o.received - 1][..o.outBuf.value.lo]
  }

  predicate OutOk(s: State, j: nat)
    requires |s.bufs| > 0 && j < |s.outs|
  {
    var o := s.outs[j];
    && Queued(s, o, Sent(s, j))
    && Live(s, o.received - 1)
    && Consumed(s, o)
    && (o.closed <==> s.pc.Done? || (s.pc.Closing? && j < s.pc.next))
  }

  predicate PcOk(s: State) {
    match s.pc
    case Reading => true
    case Forwarding(n, last, next) => next <= |s.outs| && s.chunks != [] && n == |s.chunks[|s.chunks| - 1]|
    case Closing(next) => next < |s.outs|
    case Done => true
  }

  predicate Shape(s: State, size: nat) {
    && |s.bufs| >= 3
    && |s.outs| >= 1
    && (forall i | 0 <= i < |s.bufs| :: |s.bufs[i]| == size)
    && SrcOk(s.src, size)
    && PcOk(s)
    && s.inBufIndex == Forwarded(s) % |s.bufs|
    && (forall c | 0 <= c < |s.chunks| :: 0 < |s.chunks[c]| <= size)
  }

  // size and total are the buffer size and everything the source delivers.
  predicate Inv(s: State, size: nat, total: seq<Byte>) {
    && Shape(s, size)
    && Flat(s.chunks) + Pending(s) == total
    && (forall j: nat | j < |s.outs| :: OutOk(s, j))
  }

  // NewIoDup
  function Init(p: Params, bufs: seq<seq<Byte>>, src: seq<Fill>): State {
    State(bufs, 0, seq(p.numOutputs, _ => Out(None, [], false, 0, [])), Reading, src, [])
  }

  lemma InitOut(s: State, j: nat)
    requires |s.bufs| >= 3 && j < |s.outs| && s.outs[j] == Out(None, [], false, 0, [])
    requires s.pc.Reading? && s.chunks == []
    ensures OutOk(s, j)
  {
    assert Live(s, -1);
  }

  lemma InitInv(p: Params, bufs: seq<seq<Byte>>, src: seq<Fill>)
    requires p.numOutputs >= 2 && p.numBufs >= 3 && |bufs| == p.numBufs
    requires forall i | 0 <= i < |bufs| :: |bufs[i]| == p.sizeBuf
    requires SrcOk(src, p.sizeBuf)
    ensures Inv(Init(p, bufs, src), p.sizeBuf, Data(src))
  {
    hide OutOk, Data;
    var s := Init(p, bufs, src);
    assert Flat([]) + Data(src) == Data(src);
    assert Shape(s, p.sizeBuf);
    hide Shape;
    forall j: nat | j < |s.outs| ensures OutOk(s, j) { InitOut(s, j); }
  }

  // ---------- Every step keeps the invariant ----------

  lemma FlatSnoc(chunks: seq<seq<Byte>>, c: seq<Byte>)
    ensures Flat(chunks + [c]) == Flat(chunks) + c
  {
    assert (chunks + [c])[..|chunks|] == chunks;
  }

  lemma FlatPrefix(chunks: seq<seq<Byte>>, k: nat)
    requires k < |chunks|
    ensures Flat(chunks[..k + 1]) == Flat(chunks[..k]) + chunks[k]
  {
    assert chunks[..k + 1] == chunks[..k] + [chunks[k]];
    FlatSnoc(chunks[..k], chunks[k]);
  }

  // The input buffer carries no chunk that an output may still need.
  lemma InputBufferIsFree(s: State, size: nat, total: seq<Byte>, j: nat, c: nat)
    requires Inv(s, size, total) && s.pc.Reading?
    requires j < |s.outs| && s.outs[j].received - 1 <= c < |s.chunks|
    ensures c % |s.bufs| != s.inBufIndex
  {
    assert OutOk(s, j);
    DistinctModulo(c, |s.chunks|, |s.bufs|);
  }

  // While nothing is read into the buffers, everything stays in place.
  lemma LiveSame(s: State, t: State, first: int, later: int)
    requires |s.bufs| > 0 && t.bufs == s.bufs && t.chunks == s.chunks && first <= later && Live(s, first)
    ensures Live(t, later)
  {
    forall c: nat | later <= c < |t.chunks| ensures Holds(t, c) { assert Holds(s, c); }
  }

  // A step that leaves an output, the buffers and what was sent alone leaves OutOk alone.
  lemma OutSame(s: State, t: State, j: nat)
    requires |s.bufs| > 0 && j < |s.outs| == |t.outs| && OutOk(s, j)
    requires t.bufs == s.bufs && t.chunks == s.chunks && t.outs[j] == s.outs[j] && Sent(t, j) == Sent(s, j)
    requires (t.pc.Done? || (t.pc.Closing? && j < t.pc.next)) <==> (s.pc.Done? || (s.pc.Closing? && j < s.pc.next))
    ensures OutOk(t, j)
  {
    LiveSame(s, t, s.outs[j].received - 1, s.outs[j].received - 1);
  }

  lemma ReadSrcLive(s: State, size: nat, total: seq<Byte>, j: nat)
    requires Inv(s, size, total) && Enabled(s, ReadSrc) && j < |s.outs|
    ensures Live(Next(s, ReadSrc), s.outs[j].received - 1)
  {
    var t, o := Next(s, ReadSrc), s.outs[j];
    assert OutOk(s, j);
    hide OutOk, Consumed;
    forall c: nat | o.received - 1 <= c < |t.chunks| ensures Holds(t, c) {
      if c < |s.chunks| {
        assert Holds(s, c);
        InputBufferIsFree(s, size, total, j, c);
      }
    }
  }

  lemma ReadSrcOut(s: State, size: nat, total: seq<Byte>, j: nat)
    requires Inv(s, size, total) && Enabled(s, ReadSrc) && j < |s.outs|
    ensures OutOk(Next(s, ReadSrc), j)
  {
    var t, o := Next(s, ReadSrc), s.outs[j];
    assert OutOk(s, j);
    ReadSrcLive(s, size, total, j);
    hide Live, Inv;
    assert t.chunks[..|s.chunks|] == s.chunks;
    assert o.received > 0 ==> t.chunks[..o.received - 1] == s.chunks[..o.received - 1];
  }

  lemma ReadSrcShape(s: State, size: nat)
    requires Shape(s, size) && Enabled(s, ReadSrc)
    ensures Shape(Next(s, ReadSrc), size)
  {
  }

  lemma ReadSrcBytes(s: State, size: nat)
    requires Shape(s, size) && Enabled(s, ReadSrc)
    ensures var t := Next(s, ReadSrc); SrcOk(t.src, size) && Flat(t.chunks) + Pending(t) == Flat(s.chunks) + Pending(s)
  {
    if s.src != [] {
      var t, f := Next(s, ReadSrc), s.src[0];
      assert SrcOk(t.src, size);
      hide PcOk, Forwarded, Shape;
      assert Pending(s) == f.content[..f.n] + Pending(t);
      if f.n > 0 {
        FlatSnoc(s.chunks, f.content[..f.n]);
        assert t.chunks == s.chunks + [f.content[..f.n]];
      } else {
        assert f.content[..0] == [];
      }
    }
  }

  lemma ReadSrcInv(s: State, size: nat, total: seq<Byte>)
    requires Inv(s, size, total) && Enabled(s, ReadSrc)
    ensures Inv(Next(s, ReadSrc), size, total)
  {
    var t := Next(s, ReadSrc);
    ReadSrcShape(s, size);
    ReadSrcBytes(s, size);
    hide OutOk, Flat, Pending, Shape;
    forall j: nat | j < |t.outs| ensures OutOk(t, j) {
      ReadSrcOut(s, size, total, j);
    }
  }

  lemma SendOut(s: State)
    requires |s.bufs| >= 3 && Enabled(s, Send) && OutOk(s, s.pc.next) && PcOk(s)
    requires s.inBufIndex == Forwarded(s) % |s.bufs|
    ensures OutOk(Next(s, Send), s.pc.next)
  {
    var r := s.outs[s.pc.next].received - 1;
    LiveSame(s, Next(s, Send), r, r);
    hide Live, Flat;
  }

  lemma SendInv(s: State, size: nat, total: seq<Byte>)
    requires Inv(s, size, total) && Enabled(s, Send)
    ensures Inv(Next(s, Send), size, total)
  {
    var t, i := Next(s, Send), s.pc.next;
    assert OutOk(s, i);
    SendOut(s);
    hide OutOk, Flat;
    forall j: nat | j < |t.outs| ensures OutOk(t, j) {
      if j != i { OutSame(s, t, j); }
    }
  }

  lemma AdvanceInv(s: State, size: nat, total: seq<Byte>)
    requires Inv(s, size, total) && Enabled(s, Advance)
    ensures Inv(Next(s, Advance), size, total)
  {
    hide OutOk;
    var t := Next(s, Advance);
    NextModulo(|s.chunks| - 1, |s.bufs|);
    forall j: nat | j < |t.outs| ensures OutOk(t, j) { OutSame(s, t, j); }
  }

  lemma CloseInv(s: State, size: nat, total: seq<Byte>)
    requires Inv(s, size, total) && Enabled(s, CloseNext)
    ensures Inv(Next(s, CloseNext), size, total)
  {
    var t, i := Next(s, CloseNext), s.pc.next;
    assert OutOk(s, i);
    LiveSame(s, t, s.outs[i].received - 1, s.outs[i].received - 1);
    assert OutOk(t, i) by { hide Live, Flat; }
    hide OutOk;
    forall j: nat | j < |t.outs| ensures OutOk(t, j) {
      if j != i { OutSame(s, t, j); }
    }
  }

  lemma ReceiveOut(s: State, i: nat)
    requires |s.bufs| > 0 && Enabled(s, Receive(i)) && OutOk(s, i)
    requires forall c | 0 <= c < |s.chunks| :: 0 < |s.chunks[c]|
    ensures OutOk(Next(s, Receive(i)), i)
  {
    var t := Next(s, Receive(i));
    var r: int := s.outs[i].received;
    LiveSame(s, t, r - 1, r);
    hide Live;
    assert s.chunks[r][..0] == [];
    if r > 0 {
      FlatPrefix(s.chunks, r - 1);
      assert s.chunks[r - 1][..|s.chunks[r - 1]|] == s.chunks[r - 1];
    } else {
      assert s.chunks[..0] == [];
    }
  }

  lemma ReceiveInv(s: State, size: nat, total: seq<Byte>, i: nat)
    requires Inv(s, size, total) && Enabled(s, Receive(i))
    ensures Inv(Next(s, Receive(i)), size, total)
  {
    var t := Next(s, Receive(i));
    ReceiveOut(s, i);
    hide OutOk;
    forall j: nat | j < |t.outs| ensures OutOk(t, j) {
      if j != i { OutSame(s, t, j); }
    }
  }

  // What Copy hands out is the next part of the chunk.
  lemma CopyBytes(s: State, i: nat, n: nat)
    requires |s.bufs| > 0 && i < |s.outs| && OutOk(s, i) && s.outs[i].outBuf.Some?
    ensures var x := s.outs[i].outBuf.value;
      s.outs[i].received > 0 && SliceOk(s, x)
      && (n <= x.hi - x.lo ==>
           BytesOf(s, x)[..n] == s.chunks[s.outs[i].received - 1][x.lo..x.lo + n])
  {
    assert Holds(s, s.outs[i].received - 1);
  }

  lemma CopyOut(s: State, i: nat, m: nat)
    requires |s.bufs| > 0 && Enabled(s, Copy(i, m)) && OutOk(s, i)
    ensures OutOk(Next(s, Copy(i, m)), i)
  {
    var t := Next(s, Copy(i, m));
    var r: int := s.outs[i].received;
    LiveSame(s, t, r - 1, r - 1);
    if s.outs[i].outBuf.Some? {
      CopyConsumes(s, i, m);
      hide Live, BytesOf, Consumed, Flat;
      assert OutOk(t, i);
    }
  }

  lemma CopyConsumes(s: State, i: nat, m: nat)
    requires |s.bufs| > 0 && Enabled(s, Copy(i, m)) && OutOk(s, i) && s.outs[i].outBuf.Some?
    ensures var t := Next(s, Copy(i, m));
      t.outs[i].received <= |t.chunks| && Consumed(t, t.outs[i])
  {
    var x := s.outs[i].outBuf.value;
    var n := if m < x.hi - x.lo then m else x.hi - x.lo;
    CopyBytes(s, i, n);
    hide Live, BytesOf, Flat, Queued;
    PartsJoin(Flat(s.chunks[..s.outs[i].received - 1]), s.chunks[s.outs[i].received - 1], x.lo, n);
  }

  lemma PartsJoin(before: seq<Byte>, chunk: seq<Byte>, lo: nat, n: nat)
    requires lo + n <= |chunk|
    ensures before + chunk[..lo] + chunk[lo..lo + n] == before + chunk[..lo + n]
  {
  }

  lemma CopyInv(s: State, size: nat, total: seq<Byte>, i: nat, m: nat)
    requires Inv(s, size, total) && Enabled(s, Copy(i, m))
    ensures Inv(Next(s, Copy(i, m)), size, total)
  {
    var t := Next(s, Copy(i, m));
    CopyOut(s, i, m);
    hide OutOk;
    forall j: nat | j < |t.outs| ensures OutOk(t, j) {
      if j != i { OutSame(s, t, j); }
    }
  }

  lemma StepInv(s: State, e: Event, size: nat, total: seq<Byte>)
    requires Inv(s, size, total) && Enabled(s, e)
    ensures Inv(Next(s, e), size, total)
  {
    match e
    case ReadSrc => ReadSrcInv(s, size, total);
    case Send => SendInv(s, size, total);
    case Advance => AdvanceInv(s, size, total);
    case CloseNext => CloseInv(s, size, total);
    case Receive(j) => ReceiveInv(s, size, total, j);
    case Copy(j, m) => CopyInv(s, size, total, j, m);
  }

  // ---------- Whole runs ----------

  predicate IsRun(s: State, run: seq<Event>)
    decreases |run|
  {
    run == [] || (Enabled(s, run[0]) && IsRun(Next(s, run[0]), run[1..]))
  }

  // The state after a run: any interleaving of the goroutine and the readers.
  function After(s: State, run: seq<Event>): State
    requires IsRun(s, run)
    decreases |run|
  {
    if run == [] then s else After(Next(s, run[0]), run[1..])
  }

  lemma {:induction false} RunInv(s: State, run: seq<Event>, size: nat, total: seq<Byte>)
    requires Inv(s, size, total) && IsRun(s, run)
    ensures Inv(After(s, run), size, total)
    decreases |run|
  {
    hide Inv, Enabled, Next;
    if run != [] {
      StepInv(s, run[0], size, total);
      RunInv(Next(s, run[0]), run[1..], size, total);
    }
  }

  // The concatenation of some first chunks is a prefix of the concatenation of all.
  lemma {:induction false} FlatGrows(chunks: seq<seq<Byte>>, k: nat)
    requires k <= |chunks|
    ensures Flat(chunks[..k]) <= Flat(chunks)
    decreases |chunks| - k
  {
    if k < |chunks| {
      FlatPrefix(chunks, k);
      FlatGrows(chunks, k + 1);
    } else {
      assert chunks[..k] == chunks;
    }
  }

  // Stream fidelity: what a reader has copied out is a prefix of what the source delivers,
  // and it is all of it once the reader sees EOF.
  lemma Fidelity(s: State, size: nat, total: seq<Byte>, j: nat)
    requires Inv(s, size, total) && j < |s.outs|
    ensures s.outs[j].got <= total
    ensures Eof(s, j) ==> s.outs[j].got == total
  {
    assert OutOk(s, j);
    var r := s.outs[j].received;
    if r > 0 {
      var lo := s.outs[j].outBuf.value.lo;
      FlatPrefix(s.chunks, r - 1);
      FlatGrows(s.chunks, r);
      assert s.chunks[r - 1][..lo] <= s.chunks[r - 1];
      if Eof(s, j) {
        assert s.chunks[..r] == s.chunks;
        assert s.chunks[r - 1][..lo] == s.chunks[r - 1];
      }
    } else if Eof(s, j) {
      assert s.chunks == [];
    }
  }

  // A read of m bytes hands out as many as there are in the slice, up to m, and they are the next
  // ones of what the source delivers; no other reader notices.
  lemma CopyAmount(s: State, size: nat, total: seq<Byte>, j: nat, m: nat)
    requires Inv(s, size, total) && j < |s.outs|
    ensures Enabled(s, Copy(j, m))
    ensures var t, o := Next(s, Copy(j, m)), s.outs[j];
      var held := match o.outBuf case None => 0 case Some(x) => x.hi - x.lo;
      var n := if m <= held then m else held;
      && 0 <= n && |o.got| + n <= |total|
      && t.outs == s.outs[j := t.outs[j]]
      && t.outs[j].got == o.got + total[|o.got|..|o.got| + n]
      && (n > 0 ==> t.outs[j].outBuf == Some(o.outBuf.value.(lo := o.outBuf.value.lo + n)))
      && t.outs[j].bufChan == o.bufChan && t.bufs == s.bufs && t.chunks == s.chunks
  {
    hide Inv, Live;
    CopyEnabled(s, size, total, j, m);
    CopyInv(s, size, total, j, m);
    var t, o := Next(s, Copy(j, m)), s.outs[j];
    Fidelity(s, size, total, j);
    Fidelity(t, size, total, j);
    assert t.outs[j].got[|o.got|..] == total[|o.got|..|t.outs[j].got|];
  }

  lemma CopyEnabled(s: State, size: nat, total: seq<Byte>, j: nat, m: nat)
    requires Inv(s, size, total) && j < |s.outs|
    ensures Enabled(s, Copy(j, m))
  {
    assert OutOk(s, j);
    var o := s.outs[j];
    if o.received > 0 { assert Holds(s, o.received - 1); }
  }

  // For any parameters, any source and any interleaving.
  lemma StreamFidelity(p: Params, bufs: seq<seq<Byte>>, src: seq<Fill>, run: seq<Event>, j: nat)
    requires p.numOutputs >= 2 && p.numBufs >= 3 && |bufs| == p.numBufs
    requires forall i | 0 <= i < |bufs| :: |bufs[i]| == p.sizeBuf
    requires SrcOk(src, p.sizeBuf)
    requires IsRun(Init(p, bufs, src), run) && j < |After(Init(p, bufs, src), run).outs|
    ensures var t := After(Init(p, bufs, src), run);
      && t.outs[j].got <= Data(src)
      && (Eof(t, j) ==> t.outs[j].got == Data(src))
  {
    InitInv(p, bufs, src);
    RunInv(Init(p, bufs, src), run, p.sizeBuf, Data(src));
    Fidelity(After(Init(p, bufs, src), run), p.sizeBuf, Data(src), j);
  }

  // Ring exclusivity: while the goroutine may write to the input buffer, that buffer is
  // neither queued in a channel nor held by a reader, and for each output the queued slices,
  // the held one and the input buffer are at most numBufs and lie in different buffers.
  lemma RingExclusive(s: State, size: nat, total: seq<Byte>, j: nat)
    requires Inv(s, size, total) && s.pc.Reading? && j < |s.outs|
    ensures var o := s.outs[j];
      && (forall x | x in o.bufChan :: x.buf != s.inBufIndex)
      && (o.outBuf.Some? ==> o.outBuf.value.buf != s.inBufIndex)
      && (forall x | x in o.bufChan && o.outBuf.Some? :: x.buf != o.outBuf.value.buf)
      && (forall k, l | 0 <= k < l < |o.bufChan| :: o.bufChan[k].buf != o.bufChan[l].buf)
      && |o.bufChan| + (if o.outBuf.Some? then 1 else 0) + 1 <= |s.bufs|
  {
    var o, n := s.outs[j], |s.bufs|;
    assert OutOk(s, j);
    forall k | 0 <= k < |o.bufChan|
      ensures o.bufChan[k].buf != s.inBufIndex
      ensures o.outBuf.Some? ==> o.bufChan[k].buf != o.outBuf.value.buf
    {
      DistinctModulo(o.received + k, |s.chunks|, n);
      if o.received > 0 { DistinctModulo(o.received - 1, o.received + k, n); }
    }
    forall k, l | 0 <= k < l < |o.bufChan| ensures o.bufChan[k].buf != o.bufChan[l].buf {
      DistinctModulo(o.received + k, o.received + l, n);
    }
    if o.received > 0 { DistinctModulo(o.received - 1, |s.chunks|, n); }
  }

  // So no step changes bytes that a reader holds or that wait in a channel.
  lemma SlicesAreStable(s: State, e: Event, size: nat, total: seq<Byte>, j: nat, x: Slice)
    requires Inv(s, size, total) && Enabled(s, e) && j < |s.outs|
    requires x in s.outs[j].bufChan || s.outs[j].outBuf == Some(x)
    ensures SliceOk(s, x) && SliceOk(Next(s, e), x)
    ensures BytesOf(Next(s, e), x) == BytesOf(s, x)
  {
    assert OutOk(s, j);
    if x in s.outs[j].bufChan {
      var k :| 0 <= k < |s.outs[j].bufChan| && s.outs[j].bufChan[k] == x;
      assert Holds(s, s.outs[j].received + k);
    } else {
      assert Holds(s, s.outs[j].received - 1);
    }
    if e.ReadSrc? { RingExclusive(s, size, total, j); }
  }

  // ---------- Draining one reader before the others start ----------

  // The number of non-empty reads up to the one that carries an error.
  function ChunkCount(src: seq<Fill>): nat {
    if src == [] then 0
    else (if src[0].n > 0 then 1 else 0) + (if src[0].last then 0 else ChunkCount(src[1..]))
  }

  // All chunks of the source: those read and those to come.
  function AllChunks(s: State): nat {
    |s.chunks| + if s.pc.Reading? || (s.pc.Forwarding? && !s.pc.last) then ChunkCount(s.src) else 0
  }

  // Only reader 0 reads.
  predicate OnlyReader0(e: Event) {
    (e.Receive? || e.Copy?) ==> e.j == 0
  }

  predicate OthersIdle(s: State) {
    forall j | 1 <= j < |s.outs| :: s.outs[j].received == 0
  }

  lemma StepCounts(s: State, e: Event, size: nat)
    requires Shape(s, size) && Enabled(s, e)
    ensures AllChunks(Next(s, e)) == AllChunks(s)
    ensures |Next(s, e).outs| == |s.outs| && |Next(s, e).bufs| == |s.bufs|
    ensures OthersIdle(s) && OnlyReader0(e) ==> OthersIdle(Next(s, e))
  {
  }

  lemma {:induction false} RunCounts(s: State, run: seq<Event>, size: nat, total: seq<Byte>)
    requires Inv(s, size, total) && IsRun(s, run) && OthersIdle(s)
    requires forall e | e in run :: OnlyReader0(e)
    ensures var t := After(s, run);
      AllChunks(t) == AllChunks(s) && OthersIdle(t) && |t.outs| == |s.outs| && |t.bufs| == |s.bufs|
    decreases |run|
  {
    if run != [] {
      StepCounts(s, run[0], size);
      StepInv(s, run[0], size, total);
      hide Inv, Enabled, Next, OthersIdle, AllChunks;
      RunCounts(Next(s, run[0]), run[1..], size, total);
    }
  }

  // At EOF of reader 0 every chunk waits in the channel of the idle reader 1.
  lemma EofNeedsRoom(s: State, size: nat, total: seq<Byte>)
    requires Inv(s, size, total) && OthersIdle(s) && |s.outs| >= 2 && Eof(s, 0)
    ensures AllChunks(s) <= |s.bufs| - 2
  {
    assert OutOk(s, 0) && OutOk(s, 1);
  }

  // What is left to do before reader 0 is at EOF.
  function Rank(s: State): nat {
    match s.pc
    case Forwarding(n, last, next) => 3 * |s.outs| + 9 + (if next < |s.outs| then |s.outs| - next else 0)
    case Reading => 2 * |s.outs| + 6
    case Closing(next) => 1 + if next < |s.outs| then |s.outs| - next else 0
    case Done => 0
  }

  function NextEvent(s: State): Event
    requires |s.outs| > 0
  {
    match s.pc
    case Reading => ReadSrc
    case Forwarding(n, last, next) => if next < |s.outs| then Send else Advance
    case Closing(next) => CloseNext
    case Done =>
      if Len(s.outs[0].outBuf) > 0 then Copy(0, Len(s.outs[0].outBuf)) else Receive(0)
  }

  // With room for all chunks the goroutine never blocks.
  lemma NextEventEnabled(s: State, size: nat, total: seq<Byte>)
    requires Inv(s, size, total) && OthersIdle(s) && AllChunks(s) <= |s.bufs| - 2 && !Eof(s, 0)
    ensures Enabled(s, NextEvent(s)) && OnlyReader0(NextEvent(s))
  {
    assert OutOk(s, 0);
    if s.pc.Reading? {
      assert 0 <= |s.chunks| % |s.bufs| < |s.bufs|;
    }
    if s.pc.Forwarding? && s.pc.next < |s.outs| {
      assert OutOk(s, s.pc.next);
    }
    if s.pc.Done? && Len(s.outs[0].outBuf) > 0 {
      assert Holds(s, s.outs[0].received - 1);
    }
  }

  lemma NextEventProgress(s: State, size: nat, total: seq<Byte>)
    requires Inv(s, size, total) && !Eof(s, 0) && Enabled(s, NextEvent(s))
    ensures var t := Next(s, NextEvent(s));
      && (|t.src| < |s.src| || (t.src == s.src && Rank(t) < Rank(s))
          || (t.src == s.src && Rank(t) == Rank(s) && t.chunks == s.chunks
              && (s.outs[0].received < t.outs[0].received <= |t.chunks|
                  || (t.outs[0].received == s.outs[0].received && 0 <= Len(t.outs[0].outBuf) < Len(s.outs[0].outBuf)))))
  {
    assert OutOk(s, 0);
  }

  lemma {:induction false} Drain(s: State, size: nat, total: seq<Byte>) returns (run: seq<Event>)
    requires Inv(s, size, total) && OthersIdle(s) && AllChunks(s) <= |s.bufs| - 2
    ensures IsRun(s, run) && (forall e | e in run :: OnlyReader0(e)) && |After(s, run).outs| == |s.outs|
    ensures Eof(After(s, run), 0)
    decreases |s.src|, Rank(s), |s.chunks| - s.outs[0].received, Len(s.outs[0].outBuf)
  {
    if Eof(s, 0) {
      run := [];
    } else {
      var e := NextEvent(s);
      NextEventEnabled(s, size, total);
      NextEventProgress(s, size, total);
      StepInv(s, e, size, total);
      StepCounts(s, e, size);
      hide Inv, Enabled, Next, OthersIdle, AllChunks, Rank, NextEvent, Eof;
      var rest := Drain(Next(s, e), size, total);
      run := [e] + rest;
      assert run[1..] == rest;
    }
  }

  // Reader 0 can be driven to EOF from every state reached without the other readers exactly
  // when the source delivers at most numBufs-2 non-empty chunks; with more, it never gets there.
  lemma SequentialDrain(p: Params, bufs: seq<seq<Byte>>, src: seq<Fill>, run: seq<Event>)
    requires p.numOutputs >= 2 && p.numBufs >= 3 && |bufs| == p.numBufs
    requires forall i | 0 <= i < |bufs| :: |bufs[i]| == p.sizeBuf
    requires SrcOk(src, p.sizeBuf)
    requires IsRun(Init(p, bufs, src), run) && (forall e | e in run :: OnlyReader0(e))
    ensures var t := After(Init(p, bufs, src), run);
      && |t.outs| == p.numOutputs
      && (ChunkCount(src) <= p.numBufs - 2 <==> exists more :: DrainsFrom(t, more))
      && (Eof(t, 0) ==> ChunkCount(src) <= p.numBufs - 2)
  {
    var s := Init(p, bufs, src);
    InitInv(p, bufs, src);
    RunInv(s, run, p.sizeBuf, Data(src));
    RunCounts(s, run, p.sizeBuf, Data(src));
    var t := After(s, run);
    hide Inv, OthersIdle, AllChunks;
    DrainIff(t, p.sizeBuf, Data(src));
    assert AllChunks(t) == ChunkCount(src) by { InitCount(p, bufs, src); }
    if Eof(t, 0) { EofNeedsRoom(t, p.sizeBuf, Data(src)); }
  }

  lemma InitCount(p: Params, bufs: seq<seq<Byte>>, src: seq<Fill>)
    ensures AllChunks(Init(p, bufs, src)) == ChunkCount(src)
  {
  }

  predicate DrainsFrom(t: State, more: seq<Event>) {
    && IsRun(t, more)
    && (forall e | e in more :: OnlyReader0(e))
    && After(t, more).outs != []
    && Eof(After(t, more), 0)
  }

  lemma DrainIff(t: State, size: nat, total: seq<Byte>)
    requires Inv(t, size, total) && OthersIdle(t) && |t.outs| >= 2
    ensures AllChunks(t) <= |t.bufs| - 2 <==> exists more :: DrainsFrom(t, more)
  {
    hide OthersIdle, AllChunks;
    if AllChunks(t) <= |t.bufs| - 2 {
      var more := Drain(t, size, total);
      assert DrainsFrom(t, more);
    }
    forall more | DrainsFrom(t, more) ensures AllChunks(t) <= |t.bufs| - 2 {
      RunInv(t, more, size, total);
      RunCounts(t, more, size, total);
      EofNeedsRoom(After(t, more), size, total);
    }
  }

  // ---------- Progress ----------

  // A Read that copies nothing.
  predicate Idle(s: State, e: Event) {
    e.Copy? && (e.m == 0 || (e.j < |s.outs| && Len(s.outs[e.j].outBuf) == 0))
  }

  predicate AllEof(s: State) {
    forall j: nat | j < |s.outs| :: Eof(s, j)
  }

  // What reader j has still to receive and to copy of the chunks read so far.
  function Left(s: State, size: nat, j: nat): int
    requires j < |s.outs|
  {
    (|s.chunks| - s.outs[j].received) * (size + 1) + Len(s.outs[j].outBuf)
  }

  function Backlog(s: State, size: nat, n: nat): int
    requires n <= |s.outs|
  {
    if n == 0 then 0 else Backlog(s, size, n - 1) + Left(s, size, n - 1)
  }

  // The measure: the reads to come, then the way of the goroutine, then the backlog of the readers.
  predicate Falls(s: State, t: State, size: nat) {
    || |t.src| < |s.src|
    || (t.src == s.src && Rank(t) < Rank(s))
    || (t.src == s.src && Rank(t) == Rank(s) && Backlog(t, size, |t.outs|) < Backlog(s, size, |s.outs|))
  }

  lemma LeftBounds(s: State, size: nat, total: seq<Byte>, j: nat)
    requires Inv(s, size, total) && j < |s.outs|
    ensures Left(s, size, j) >= 0 && 0 <= Len(s.outs[j].outBuf) <= size
  {
    hide Inv, Len;
    OutBounds(s, size, total, j);
    Product(|s.chunks| - s.outs[j].received, size + 1);
  }

  lemma Product(x: int, y: int)
    requires x >= 0 && y >= 0
    ensures x * y >= 0
  {
  }

  lemma OutBounds(s: State, size: nat, total: seq<Byte>, j: nat)
    requires Inv(s, size, total) && j < |s.outs|
    ensures s.outs[j].received <= |s.chunks| && 0 <= Len(s.outs[j].outBuf) <= size
  {
    assert OutOk(s, j);
    hide Queued, Live, Flat;
    if s.outs[j].received > 0 { assert |s.chunks[s.outs[j].received - 1]| <= size; }
  }

  lemma {:induction false} BacklogBounds(s: State, size: nat, total: seq<Byte>, n: nat)
    requires Inv(s, size, total) && n <= |s.outs|
    ensures Backlog(s, size, n) >= 0
  {
    hide Inv, Left;
    if n > 0 {
      BacklogBounds(s, size, total, n - 1);
      LeftBounds(s, size, total, n - 1);
    }
  }

  lemma {:induction false} BacklogOne(s: State, t: State, size: nat, j: nat, n: nat)
    requires n <= |s.outs| == |t.outs| && j < |s.outs| && t.chunks == s.chunks && t.outs == s.outs[j := t.outs[j]]
    ensures Backlog(t, size, n) == Backlog(s, size, n) + if j < n then Left(t, size, j) - Left(s, size, j) else 0
  {
    if n > 0 { BacklogOne(s, t, size, j, n - 1); }
  }

  // Every step that is not idle lowers the measure: no run can go on forever without idle reads.
  lemma StepFalls(s: State, e: Event, size: nat, total: seq<Byte>)
    requires Inv(s, size, total) && Enabled(s, e) && !Idle(s, e)
    ensures Falls(s, Next(s, e), size)
  {
    if e.Receive? {
      ReceiveLowers(s, size, total, e.j);
      ReaderFalls(s, e, size, e.j);
    } else if e.Copy? {
      CopyLowers(s, size, total, e.j, e.m);
      ReaderFalls(s, e, size, e.j);
    } else {
      ProducerFalls(s, e, size, total);
    }
  }

  // A step of the goroutine.
  lemma ProducerFalls(s: State, e: Event, size: nat, total: seq<Byte>)
    requires Inv(s, size, total) && Enabled(s, e) && !e.Receive? && !e.Copy?
    ensures Falls(s, Next(s, e), size)
  {
    hide OutOk, Flat, Backlog;
  }

  // A step of reader j that leaves it with less.
  lemma ReaderFalls(s: State, e: Event, size: nat, j: nat)
    requires Enabled(s, e) && j < |s.outs| && (e == Receive(j) || (e.Copy? && e.j == j))
    requires Left(Next(s, e), size, j) < Left(s, size, j)
    ensures Falls(s, Next(s, e), size)
  {
    hide Left, Backlog;
    BacklogOne(s, Next(s, e), size, j, |s.outs|);
  }

  lemma CopyLowers(s: State, size: nat, total: seq<Byte>, j: nat, m: nat)
    requires Inv(s, size, total) && Enabled(s, Copy(j, m)) && !Idle(s, Copy(j, m))
    ensures Left(Next(s, Copy(j, m)), size, j) < Left(s, size, j)
  {
    OutBounds(s, size, total, j);
    hide Inv;
  }

  lemma ReceiveLowers(s: State, size: nat, total: seq<Byte>, j: nat)
    requires Inv(s, size, total) && Enabled(s, Receive(j))
    ensures Left(Next(s, Receive(j)), size, j) < Left(s, size, j)
  {
    var t := Next(s, Receive(j));
    StepInv(s, Receive(j), size, total);
    LeftBounds(t, size, total, j);
    var x := |s.chunks| - s.outs[j].received;
    assert (x - 1) * (size + 1) == x * (size + 1) - (size + 1);
  }

  // While some reader is not at EOF a step that is not idle is enabled: the readers and the
  // goroutine never wait for each other in a circle.
  lemma SomeStep(s: State, size: nat, total: seq<Byte>, j: nat) returns (e: Event)
    requires Inv(s, size, total) && j < |s.outs| && !Eof(s, j)
    ensures Enabled(s, e) && !Idle(s, e)
  {
    match s.pc
    case Reading =>
      e := ReadSrc;
      assert 0 <= |s.chunks| % |s.bufs| < |s.bufs|;
    case Forwarding(n, last, next) =>
      if next == |s.outs| {
        e := Advance;
      } else if |s.outs[next].bufChan| < Room(s) {
        e := Send;
      } else {
        e := ReaderStep(s, size, total, next);
      }
    case Closing(next) => e := CloseNext;
    case Done =>
      assert OutOk(s, j);
      e := ReaderStep(s, size, total, j);
  }

  lemma ReaderStep(s: State, size: nat, total: seq<Byte>, j: nat) returns (e: Event)
    requires Inv(s, size, total) && j < |s.outs| && (s.outs[j].bufChan != [] || Len(s.outs[j].outBuf) != 0)
    ensures Enabled(s, e) && !Idle(s, e)
  {
    assert OutOk(s, j);
    if Len(s.outs[j].outBuf) == 0 {
      e := Receive(j);
    } else {
      assert Holds(s, s.outs[j].received - 1);
      e := Copy(j, Len(s.outs[j].outBuf));
    }
  }

  // So with all readers reading, everyone reaches EOF, however many chunks there are.
  lemma {:induction false} DrainAll(s: State, size: nat, total: seq<Byte>) returns (run: seq<Event>)
    requires Inv(s, size, total)
    ensures IsRun(s, run) && |After(s, run).outs| == |s.outs| && AllEof(After(s, run))
    decreases |s.src|, Rank(s), Backlog(s, size, |s.outs|)
  {
    if AllEof(s) {
      run := [];
    } else {
      var j: nat :| j < |s.outs| && !Eof(s, j);
      var e := SomeStep(s, size, total, j);
      StepFalls(s, e, size, total);
      StepInv(s, e, size, total);
      StepCounts(s, e, size);
      BacklogBounds(s, size, total, |s.outs|);
      hide Inv, Enabled, Next, Rank, Backlog, Eof, Idle;
      var rest := DrainAll(Next(s, e), size, total);
      run := [e] + rest;
      assert run[1..] == rest;
    }
  }

  predicate Finishes(t: State, more: seq<Event>, data: seq<Byte>) {
    && IsRun(t, more)
    && AllEof(After(t, more))
    && forall o | o in After(t, more).outs :: o.got == data
  }

  // From every state that any interleaving reaches, all readers can go on to receive everything.
  lemma EveryoneFinishes(p: Params, bufs: seq<seq<Byte>>, src: seq<Fill>, run: seq<Event>)
    requires p.numOutputs >= 2 && p.numBufs >= 3 && |bufs| == p.numBufs
    requires forall i | 0 <= i < |bufs| :: |bufs[i]| == p.sizeBuf
    requires SrcOk(src, p.sizeBuf) && IsRun(Init(p, bufs, src), run)
    ensures exists more :: Finishes(After(Init(p, bufs, src), run), more, Data(src))
  {
    InitInv(p, bufs, src);
    RunInv(Init(p, bufs, src), run, p.sizeBuf, Data(src));
    var t := After(Init(p, bufs, src), run);
    hide Inv, Init, Eof;
    var more := DrainAll(t, p.sizeBuf, Data(src));
    RunInv(t, more, p.sizeBuf, Data(src));
    var u := After(t, more);
    forall j: nat | j < |u.outs| ensures u.outs[j].got == Data(src) {
      assert Eof(u, j);
      Fidelity(u, p.sizeBuf, Data(src), j);
    }
    assert Finishes(t, more, Data(src));
  }
}
