/** Pipes (kernel/pipe.c): a ring buffer with 32-bit counters that wrap around.
    A call runs with the pipe's lock held from one sleep to the next, so each
    such stretch is one method call here, and interleavings are sequences of calls. */
module Pipes {
  import opened Wrapping

  const PIPESIZE := 512
  const WORD := 0x1_0000_0000

  type Byte = int
  type Pid = nat

  /** How a stretch of `pipewrite` or `piperead` ends: asleep with `i` bytes done, or returning `r`. */
  datatype Outcome = Sleeping(i: nat) | Done(r: int)

  /** One stretch of a call. `alive` and `bad` are the first byte index at which the process
      is seen to be killed, or its user memory cannot be copied. */
  datatype Call =
    | Writes(pid: Pid, src: seq<Byte>, n: int, i0: nat, alive: nat, bad: nat)
    | Reads(pid: Pid, count: int, killed: bool, badOut: nat)
    | Killed(victim: Pid)
    | Closes(writable: bool)
  {
    /** A writer supplies its `n` bytes, and resumes where it left off. */
    predicate Ok() {
      Writes? ==> n <= |src| && (i0 == 0 || i0 <= n)
    }

    /** The writer is seen to be killed after its first byte, before anything else stops it. */
    predicate CutShort() {
      Writes? && i0 < alive < n && alive <= bad && alive - i0 <= PIPESIZE
    }
  }

  /** What a call finds: who is waiting for bytes, and whether they can still be read. */
  datatype Moment = Moment(readers: set<Pid>, readopen: bool)

  /** No call leaves a reader asleep beside bytes. */
  ghost predicate Harmless(calls: seq<Call>, at: seq<Moment>) {
    |at| == |calls| && forall k :: 0 <= k < |calls| ==> !Strands(calls[k], at[k])
  }

  lemma HarmlessMore(calls: seq<Call>, at: seq<Moment>, c: Call, m: Moment)
    requires |at| == |calls|
    ensures Harmless(calls + [c], at + [m]) <==> Harmless(calls, at) && !Strands(c, m)
  {
    var calls', at' := calls + [c], at + [m];
    assert forall k :: 0 <= k < |calls| ==> calls'[k] == calls[k] && at'[k] == at[k];
    assert calls'[|calls|] == c && at'[|calls|] == m;
  }

  /** It leaves a reader asleep beside bytes. */
  predicate Strands(c: Call, m: Moment) {
    c.CutShort() && m.readers != {} && m.readopen
  }

  // -------- 32-bit counters --------

  /** PIPESIZE divides 2^32, so reducing a counter modulo 2^32 first does not move a slot. */
  lemma SlotOfCounter(total: nat)
    ensures (total % WORD) % PIPESIZE == total % PIPESIZE
  {
    PlaceOfCounter(total, WORD, 8388608, PIPESIZE);
  }

  lemma CounterStep(total: nat)
    ensures (total % WORD + 1) % WORD == (total + 1) % WORD
  {
    AddWraps(total, 1, WORD);
    AddWraps(total % WORD, 1, WORD);
    Small(total % WORD, WORD);
  }

  /** On wrapped counters, "equal" and "equal plus PIPESIZE" still mean empty and full. */
  lemma EmptyAndFull(nread: nat, nwrite: nat)
    requires nread <= nwrite <= nread + PIPESIZE
    ensures nread % WORD == nwrite % WORD <==> nread == nwrite
    ensures nwrite % WORD == (nread % WORD + PIPESIZE) % WORD <==> nwrite == nread + PIPESIZE
    ensures (nwrite % WORD - nread % WORD) % WORD == nwrite - nread
  {
    AddWraps(nread, nwrite - nread, WORD);
    AddWraps(nread % WORD, PIPESIZE, WORD);
    Small(nread % WORD, WORD);
  }

  /** Distinct positions less than PIPESIZE apart are in distinct slots. */
  lemma DistinctSlots(i: nat, j: nat)
    requires i < j < i + PIPESIZE
    ensures i % PIPESIZE != j % PIPESIZE
  {
    CountersMeet(i, j, PIPESIZE);
  }

  class Pipe {
    const data: array<Byte>
    var nread: nat
    var nwrite: nat
    var readopen: bool
    var writeopen: bool
    /** Processes asleep on the channels `nread` and `nwrite`. */
    var readers: set<Pid>
    var writers: set<Pid>
    /** Every byte ever put into the pipe, and how many have been taken out. */
    ghost var accepted: seq<Byte>
    ghost var taken: nat

    ghost predicate Valid()
      reads this, data
    {
      && data.Length == PIPESIZE
      && taken <= |accepted| <= taken + PIPESIZE
      && nread == taken % WORD && nwrite == |accepted| % WORD
      && forall k :: taken <= k < |accepted| ==> data[k % PIPESIZE] == accepted[k]
    }

    ghost function Delivered(): seq<Byte>
      requires taken <= |accepted|
      reads this
    {
      accepted[..taken]
    }

    ghost function Buffered(): seq<Byte>
      requires taken <= |accepted|
      reads this
    {
      accepted[taken..]
    }

    /** Nobody sleeps through the event it waits for. */
    ghost predicate NoneStranded()
      reads this
    {
      && (readers != {} ==> taken == |accepted| && writeopen)
      && (writers != {} ==> |accepted| == taken + PIPESIZE && readopen)
    }

    /** `pipealloc` */
    constructor ()
      ensures Valid() && fresh(data) && NoneStranded()
      ensures accepted == [] && taken == 0 && readopen && writeopen && readers == {} && writers == {}
    {
      data := new Byte[PIPESIZE];
      nread, nwrite, readopen, writeopen := 0, 0, true, true;
      readers, writers := {}, {};
      accepted, taken := [], 0;
    }

    /** Bytes put in and not yet taken, read off the wrapped counters alone. */
    method Level() returns (r: nat)
      requires Valid()
      ensures r == |Buffered()| && r <= 512
    {
      EmptyAndFull(taken, |accepted|);
      r := (nwrite - nread) % WORD;
    }

    method Put(ch: Byte)
      requires Valid() && |accepted| < taken + PIPESIZE
      modifies this`nwrite, this`accepted, data
      ensures Valid() && accepted == old(accepted) + [ch]
    {
      SlotOfCounter(|accepted|);
      CounterStep(|accepted|);
      forall k | taken <= k < |accepted| ensures k % PIPESIZE != |accepted| % PIPESIZE {
        DistinctSlots(k, |accepted|);
      }
      data[nwrite % PIPESIZE] := ch;
      nwrite := (nwrite + 1) % WORD;
      accepted := accepted + [ch];
    }

    method Take() returns (ch: Byte)
      requires Valid() && taken < |accepted|
      modifies this`nread, this`taken
      ensures Valid() && taken == old(taken) + 1 && ch == accepted[old(taken)]
    {
      SlotOfCounter(taken);
      CounterStep(taken);
      ch := data[nread % PIPESIZE];
      nread := (nread + 1) % WORD;
      taken := taken + 1;
    }

    /** `pipewrite`, resumed with `i0` bytes already written, up to its next sleep or its return. */
    method Write(pid: Pid, src: seq<Byte>, n: int, i0: nat, alive: nat, bad: nat) returns (out: Outcome, j: nat)
      requires Valid() && n <= |src| && (i0 == 0 || i0 <= n)
      modifies this`nwrite, this`accepted, this`readers, this`writers, data
      ensures Valid()
      ensures i0 <= j
      ensures j > i0 ==> j <= n && j <= alive && j <= bad && readopen
      ensures j > i0 ==> j - i0 <= 512 - |old(Buffered())|
      ensures j <= |src| && accepted == old(accepted) + src[i0..j]
      ensures out ==
        if j >= n then Done(j)
        else if !readopen || j >= alive then Done(-1)
        else if |Buffered()| == 512 then Sleeping(j)
        else Done(j)
      ensures out == Done(j) ==> j >= n || j >= bad
      ensures readers == if out == Done(-1) then old(readers) else {}
      ensures writers == if out.Sleeping? then old(writers) + {pid} else old(writers)
      ensures old(NoneStranded()) ==>
        (NoneStranded() <==> !Strands(Writes(pid, src, n, i0, alive, bad), Moment(old(readers), readopen)))
    {
      j := i0;
      while j < n
        invariant Valid() && i0 <= j <= |src|
        invariant j > i0 ==> j <= n && j <= alive && j <= bad && readopen
        invariant j > i0 ==> j - i0 <= taken + PIPESIZE - |old(accepted)|
        invariant accepted == old(accepted) + src[i0..j]
        invariant readers == old(readers) && writers == old(writers)
        decreases n - j
      {
        if !readopen || j >= alive {
          out := Done(-1);
          return;
        }
        EmptyAndFull(taken, |accepted|);
        if nwrite == (nread + PIPESIZE) % WORD {
          readers := {};
          writers := writers + {pid};
          out := Sleeping(j);
          return;
        }
        if j >= bad { break; }
        Put(src[j]);
        assert src[i0..j + 1] == src[i0..j] + [src[j]];
        j := j + 1;
      }
      readers := {};
      out := Done(j);
    }

    /** `piperead`, up to its next sleep or its return; `got` are the bytes copied out. */
    method Read(pid: Pid, n: int, killed: bool, bad: nat) returns (out: Outcome, got: seq<Byte>)
      requires Valid()
      modifies this`nread, this`taken, this`readers, this`writers
      ensures Valid()
      ensures taken == old(taken) + |got| && got == accepted[old(taken)..taken]
      ensures out.Sleeping? <==> old(Buffered()) == [] && writeopen && !killed
      ensures out.Sleeping? ==> out.i == 0 && readers == old(readers) + {pid} && writers == old(writers)
      ensures out == Done(-1) <==>
                (old(Buffered()) == [] && writeopen && killed) || (bad == 0 < n && old(Buffered()) != [])
      ensures out == Done(-1) || out.Sleeping? ==> got == []
      ensures out.Done? && out.r != -1 ==> out.r == |got| && (|got| == n || n < 0 || |got| == bad || Buffered() == [])
      ensures |got| <= bad && (n <= 0 ==> got == []) && (n > 0 ==> |got| <= n)
      ensures out.Done? ==> readers == old(readers)
      ensures old(NoneStranded()) ==> NoneStranded()
    {
      got := [];
      EmptyAndFull(taken, |accepted|);
      if nread == nwrite && writeopen {
        if killed {
          out := Done(-1);
          return;
        }
        readers := readers + {pid};
        out := Sleeping(0);
        return;
      }
      var i := 0;
      while i < n
        invariant Valid() && i == |got| && i <= bad && (n <= 0 ==> i == 0) && (n > 0 ==> i <= n)
        invariant taken == old(taken) + i && got == accepted[old(taken)..taken]
        invariant writers == old(writers) && readers == old(readers)
        decreases n - i
      {
        EmptyAndFull(taken, |accepted|);
        if nread == nwrite { break; }
        if i >= bad {
          if i == 0 { i := -1; }
          break;
        }
        var ch := Take();
        got := got + [ch];
        i := i + 1;
      }
      writers := {};
      out := Done(i);
    }

    /** `pipeclose`; `freed` says that the page holding the pipe was given back. */
    method Close(writable: bool) returns (freed: bool)
      requires Valid() && (if writable then writeopen else readopen)
      modifies this`readopen, this`writeopen, this`readers, this`writers
      ensures Valid() && freed == (!readopen && !writeopen)
      ensures writeopen == (old(writeopen) && !writable) && readopen == (old(readopen) && writable)
      ensures old(NoneStranded()) ==> NoneStranded()
      ensures freed && old(NoneStranded()) ==> readers == {} && writers == {}
    {
      if writable {
        writeopen := false;
        readers := {};
      } else {
        readopen := false;
        writers := {};
      }
      freed := !readopen && !writeopen;
    }

    /** `kkill` on a process asleep here: it becomes runnable, and will look again. */
    method Kill(pid: Pid)
      requires Valid()
      modifies this`readers, this`writers
      ensures Valid() && readers == old(readers) - {pid} && writers == old(writers) - {pid}
      ensures old(NoneStranded()) ==> NoneStranded()
    {
      readers := readers - {pid};
      writers := writers - {pid};
    }

    method Do(c: Call) returns (put: seq<Byte>, got: seq<Byte>)
      requires Valid() && c.Ok()
      modifies this, data
      ensures Valid() && accepted == old(accepted) + put
      ensures taken == old(taken) + |got| && got == accepted[old(taken)..taken]
      ensures old(NoneStranded()) ==> (NoneStranded() <==> !Strands(c, Moment(old(readers), old(readopen))))
    {
      put, got := [], [];
      match c {
        case Writes(pid, src, n, i0, alive, bad) =>
          var _, j := Write(pid, src, n, i0, alive, bad);
          put := src[i0..j];
        case Reads(pid, n, killed, bad) =>
          var _, more := Read(pid, n, killed, bad);
          got := more;
        case Killed(pid) =>
          Kill(pid);
        case Closes(writable) =>
          if if writable then writeopen else readopen {
            var _ := Close(writable);
          }
      }
    }

    /** The FIFO law over any interleaving of any number of readers and writers: what was buffered
        plus everything the writers put in, in order, is everything the readers got, in order,
        plus what is buffered now. Nobody sleeps through the event it waits for, unless some call
        strands a reader at its moment (in `at`), which only a writer that is cut short can do. */
    method Run(calls: seq<Call>) returns (put: seq<Byte>, got: seq<Byte>, ghost at: seq<Moment>)
      requires Valid() && forall c :: c in calls ==> c.Ok()
      modifies this, data
      ensures Valid()
      ensures old(Buffered()) + put == got + Buffered() && |Buffered()| <= 512
      ensures accepted == old(accepted) + put && Delivered() == old(Delivered()) + got && Delivered() <= accepted
      ensures |at| == |calls| && (calls != [] ==> at[0] == Moment(old(readers), old(readopen)))
      ensures old(NoneStranded()) && Harmless(calls, at) ==> NoneStranded()
      ensures (forall c :: c in calls ==> !c.CutShort()) ==> Harmless(calls, at)
    {
      put, got, at := [], [], [];
      ghost var clean := true;
      for k := 0 to |calls|
        invariant Valid() && |at| == k && (k > 0 ==> at[0] == Moment(old(readers), old(readopen)))
        invariant k == 0 ==> readers == old(readers) && readopen == old(readopen)
        invariant clean == Harmless(calls[..k], at) && (old(NoneStranded()) && clean ==> NoneStranded())
        invariant accepted == old(accepted) + put && taken == old(taken) + |got|
        invariant got == accepted[old(taken)..taken]
      {
        assert calls[k] in calls;
        ghost var now := Moment(readers, readopen);
        HarmlessMore(calls[..k], at, calls[k], now);
        assert calls[..k + 1] == calls[..k] + [calls[k]];
        at, clean := at + [now], clean && !Strands(calls[k], now);
        var p, g := Do(calls[k]);
        put, got := put + p, got + g;
      }
    }
  }

  /** A writer killed after its first byte leaves without a wakeup: the reader that was waiting
      for that byte sleeps on although the pipe is not empty. */
  method StrandedReader() returns (p: Pipe)
    ensures p.Valid() && p.readers == {0} && p.writeopen && p.Buffered() == [7]
  {
    p := new Pipe();
    var _, got := p.Read(0, 1, false, 1);
    var _, j := p.Write(1, [7, 8], 2, 0, 1, 2);
    assert [7, 8][0..j] == [7];
  }
}
