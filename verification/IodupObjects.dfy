// iodup.go: the Iodup and Out objects. Each method is one atomic step of the goroutine or of
// a reader; buffers are arrays that the goroutine overwrites in place.
module IodupObjects {
  import opened Wrappers
  import opened Bits
  import I = Iodup

  class Out {
    var outBuf: Option<I.Slice>
    var bufChan: seq<I.Slice>
    var closed: bool
    ghost var received: nat
    ghost var got: seq<Byte>

    ghost function View(): I.Out
      reads this
    {
      I.Out(outBuf, bufChan, closed, received, got)
    }

    constructor ()
      ensures View() == I.Out(None, [], false, 0, [])
    {
      outBuf, bufChan, closed, received, got := None, [], false, 0, [];
    }
  }

  class Iodup {
    const bufs: seq<array<Byte>>
    const output: seq<Out>
    var inBufIndex: nat
    var src: seq<I.Fill>
    var pc: I.Pc
    ghost var chunks: seq<seq<Byte>>
    ghost const size: nat
    ghost const total: seq<Byte>

    ghost function Bufs(): seq<seq<Byte>>
      reads bufs
    {
      seq(|bufs|, i requires 0 <= i < |bufs| reads bufs => bufs[i][..])
    }

    ghost function Outs(): seq<I.Out>
      reads output
    {
      seq(|output|, j requires 0 <= j < |output| reads output => output[j].View())
    }

    ghost function View(): I.State
      reads this, bufs, output
    {
      I.State(Bufs(), inBufIndex, Outs(), pc, src, chunks)
    }

    // No buffer and no output appears twice.
    ghost predicate Separate() {
      && (forall i, k | 0 <= i < k < |bufs| :: bufs[i] != bufs[k])
      && (forall i, k | 0 <= i < k < |output| :: output[i] != output[k])
    }

    ghost predicate Valid()
      reads this, bufs, output
    {
      Separate() && I.Inv(View(), size, total)
    }

    constructor Make(bufs: seq<array<Byte>>, output: seq<Out>, src: seq<I.Fill>, ghost size: nat)
      requires I.SrcOk(src, size)
      ensures this.bufs == bufs && this.output == output && this.size == size && total == I.Data(src)
      ensures inBufIndex == 0 && this.src == src && pc == I.Reading && chunks == []
    {
      this.bufs, this.output, this.src, this.size := bufs, output, src, size;
      inBufIndex, pc, chunks := 0, I.Reading, [];
      total := I.Data(src);
    }

    // readFromSrc, and what the goroutine does when no data came
    method ReadFromSrc()
      requires Valid() && pc.Reading? && inBufIndex < |bufs|
      modifies this`src, this`pc, this`chunks, bufs[inBufIndex]
      ensures Valid()
      ensures View() == I.Next(old(View()), I.ReadSrc)
    {
      ghost var s := View();
      I.StepInv(s, I.ReadSrc, size, total);
      SrcFits();
      hide I.Inv;
      if src == [] {
        pc := CloseFrom(0);
        assert Bufs() == s.bufs && Outs() == s.outs;
      } else {
        var f := src[0];
        src := src[1..];
        Fill(f.content);
        if f.n > 0 {
          chunks := chunks + [f.content[..f.n]];
          pc := I.Forwarding(f.n, f.last, 0);
        } else if f.last {
          pc := CloseFrom(0);
        }
        assert Outs() == s.outs;
      }
    }

    lemma SrcFits()
      requires Valid()
      ensures forall f | f in src :: |f.content| == size && f.n <= size
      ensures forall b | b in bufs :: b.Length == size
    {
      forall i | 0 <= i < |bufs| ensures bufs[i].Length == size {
        assert |View().bufs[i]| == size;
      }
    }

    // The source writes to the input buffer.
    method Fill(content: seq<Byte>)
      requires Separate() && inBufIndex < |bufs| && |content| == bufs[inBufIndex].Length
      modifies bufs[inBufIndex]
      ensures Bufs() == old(Bufs())[inBufIndex := content]
    {
      var b := bufs[inBufIndex];
      for i := 0 to b.Length
        invariant b[..i] == content[..i]
      {
        b[i] := content[i];
      }
      assert b[..] == content;
    }

    function CloseFrom(next: nat): I.Pc
      ensures CloseFrom(next) == I.CloseFrom(View(), next)
      reads this, bufs, output
    {
      if next < |output| then I.Closing(next) else I.Done
    }

    // One send of forwardToOut; it waits while the channel is full.
    method Forward()
      requires Valid() && I.Enabled(View(), I.Send)
      modifies this`pc, output
      ensures Valid()
      ensures View() == I.Next(old(View()), I.Send)
    {
      ghost var s := View();
      I.StepInv(s, I.Send, size, total);
      hide I.Inv;
      var out := output[pc.next];
      out.bufChan := out.bufChan + [I.Slice(inBufIndex, 0, pc.n)];
      pc := pc.(next := pc.next + 1);
      assert Bufs() == s.bufs;
      assert Outs() == I.Next(s, I.Send).outs;
      assert View() == I.Next(s, I.Send);
    }

    // The next buffer of the ring becomes the input buffer.
    method AdvanceBuffer()
      requires Valid() && I.Enabled(View(), I.Advance)
      modifies this`pc, this`inBufIndex
      ensures Valid()
      ensures View() == I.Next(old(View()), I.Advance)
    {
      ghost var s := View();
      I.StepInv(s, I.Advance, size, total);
      hide I.Inv;
      inBufIndex := (inBufIndex + 1) % |bufs|;
      pc := if pc.last then CloseFrom(0) else I.Reading;
      assert View() == I.Next(s, I.Advance);
    }

    // One closeChannel at the end of the goroutine.
    method CloseChannel()
      requires Valid() && I.Enabled(View(), I.CloseNext)
      modifies this`pc, output
      ensures Valid()
      ensures View() == I.Next(old(View()), I.CloseNext)
    {
      ghost var s := View();
      I.StepInv(s, I.CloseNext, size, total);
      hide I.Inv;
      output[pc.next].closed := true;
      pc := CloseFrom(pc.next + 1);
      assert Bufs() == s.bufs;
      assert Outs() == I.Next(s, I.CloseNext).outs;
      assert View() == I.Next(s, I.CloseNext);
    }

    // The first half of Out.Read: take a slice from the channel.
    method Receive(j: nat)
      requires Valid() && I.Enabled(View(), I.Receive(j))
      modifies output
      ensures Valid()
      ensures View() == I.Next(old(View()), I.Receive(j))
    {
      ghost var s := View();
      I.StepInv(s, I.Receive(j), size, total);
      hide I.Inv;
      var out := output[j];
      out.outBuf, out.bufChan := Some(out.bufChan[0]), out.bufChan[1..];
      out.received := out.received + 1;
      assert Bufs() == s.bufs;
      assert Outs() == I.Next(s, I.Receive(j)).outs;
      assert View() == I.Next(s, I.Receive(j));
    }

    // The second half of Out.Read: copy to the destination.
    method CopyTo(j: nat, dest: array<Byte>) returns (n: nat)
      requires Valid() && I.Enabled(View(), I.Copy(j, dest.Length)) && output[j].outBuf.Some?
      requires dest !in bufs
      modifies output, dest
      ensures Valid()
      ensures View() == I.Next(old(View()), I.Copy(j, dest.Length))
      ensures n <= dest.Length && (n == dest.Length || I.Len(output[j].outBuf) == 0)
      ensures output[j].got == old(output[j].got) + dest[..n]
      ensures dest[n..] == old(dest[n..])
    {
      ghost var s := View();
      ghost var e := I.Copy(j, dest.Length);
      I.StepInv(s, e, size, total);
      hide I.Inv;
      n := CopySlice(output[j].outBuf.value, dest);
      assert View() == s;
      Consume(j, n);
      assert View().outs[j] == output[j].View();
      assert View() == I.Next(s, e);
    }

    // copy(dest, slice)
    method CopySlice(x: I.Slice, dest: array<Byte>) returns (n: nat)
      requires x.buf < |bufs| && x.lo <= x.hi <= bufs[x.buf].Length && dest !in bufs
      modifies dest
      ensures n == if dest.Length < x.hi - x.lo then dest.Length else x.hi - x.lo
      ensures dest[..n] == Bufs()[x.buf][x.lo..x.hi][..n]
      ensures dest[n..] == old(dest[n..])
    {
      n := if dest.Length < x.hi - x.lo then dest.Length else x.hi - x.lo;
      var b := bufs[x.buf];
      for i := 0 to n
        invariant dest[..i] == b[x.lo..x.lo + i]
        invariant dest[n..] == old(dest[n..])
      {
        dest[i] := b[x.lo + i];
      }
    }

    // The n bytes copied are skipped next time.
    method Consume(j: nat, n: nat)
      requires Separate() && j < |output| && output[j].outBuf.Some? && I.SliceOk(View(), output[j].outBuf.value)
      requires n <= I.Len(output[j].outBuf)
      modifies output
      ensures View() ==
        var s := old(View());
        var x := s.outs[j].outBuf.value;
        s.(outs := s.outs[j := s.outs[j].(outBuf := Some(x.(lo := x.lo + n)),
                                          got := s.outs[j].got + I.BytesOf(s, x)[..n])])
    {
      ghost var s := View();
      var out := output[j];
      var x := out.outBuf.value;
      out.outBuf := Some(x.(lo := x.lo + n));
      out.got := out.got + I.BytesOf(s, x)[..n];
      assert Bufs() == s.bufs;
      assert Outs() == s.outs[j := output[j].View()];
    }

    // Out.Read, called when it does not have to wait.
    method Read(j: nat, dest: array<Byte>) returns (n: nat, eof: bool)
      requires Valid() && j < |output| && dest !in bufs
      requires I.Len(output[j].outBuf) > 0 || output[j].bufChan != [] || output[j].closed
      modifies output, dest
      ensures Valid()
      ensures eof <==> old(I.Eof(View(), j))
      ensures eof ==> View() == old(View()) && n == 0 && output[j].got == total
      ensures !eof ==> n <= dest.Length && output[j].got == old(output[j].got) + dest[..n]
      ensures output[j].got <= total
    {
      I.Fidelity(View(), size, total, j);
      assert View().outs[j] == output[j].View();
      eof := false;
      if I.Len(output[j].outBuf) == 0 {
        if output[j].bufChan == [] {
          OutLen(j);
          return 0, true;
        }
        Receive(j);
        assert View().outs[j] == output[j].View();
      }
      OutLen(j);
      hide I.Inv;
      n := CopyTo(j, dest);
      assert View().outs[j] == output[j].View();
      I.Fidelity(View(), size, total, j);
    }

    // A reader's current slice lies within its buffer; used up means nothing is left.
    lemma OutLen(j: nat)
      requires Valid() && j < |output|
      ensures I.Len(output[j].outBuf) >= 0
      ensures output[j].outBuf.Some? ==> I.SliceOk(View(), output[j].outBuf.value)
    {
      assert I.OutOk(View(), j);
      if output[j].outBuf.Some? { I.CopyBytes(View(), j, 0); }
    }
  }

  // NewIoDup: fresh buffers and outputs for one source
  method NewIoDup(p: I.Params, src: seq<I.Fill>) returns (iod: Iodup)
    requires p.numOutputs >= 2 && p.numBufs >= 3 && I.SrcOk(src, p.sizeBuf)
    ensures fresh(iod) && iod.Valid() && iod.size == p.sizeBuf && iod.total == I.Data(src)
    ensures iod.View() == I.Init(p, iod.Bufs(), src)
  {
    var bufs: seq<array<Byte>> := [];
    for i := 0 to p.numBufs
      invariant |bufs| == i
      invariant forall k | 0 <= k < i :: fresh(bufs[k]) && bufs[k].Length == p.sizeBuf
      invariant forall k, l | 0 <= k < l < i :: bufs[k] != bufs[l]
    {
      var b := new Byte[p.sizeBuf](_ => 0);
      bufs := bufs + [b];
    }
    var output: seq<Out> := [];
    for i := 0 to p.numOutputs
      invariant |output| == i
      invariant forall k | 0 <= k < i :: fresh(output[k]) && output[k].View() == I.Out(None, [], false, 0, [])
      invariant forall k, l | 0 <= k < l < i :: output[k] != output[l]
    {
      var o := new Out();
      output := output + [o];
    }
    iod := new Iodup.Make(bufs, output, src, p.sizeBuf);
    I.InitInv(p, iod.Bufs(), src);
    assert iod.Outs() == I.Init(p, iod.Bufs(), src).outs;
  }
}
