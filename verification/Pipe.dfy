/** read_pipe and write_pipe of fs/pipe.c with one reader and one writer.  A method below is the code
    from a call, or from the return of sleep_on, to the next return or sleep_on. */
module Pipe {

  const PAGE_SIZE: nat := 4096

  type Byte = x: int | 0 <= x < 256

  /** INC_PIPE */
  function Inc(n: nat): nat { (n + 1) % PAGE_SIZE }

  /** PIPE_SIZE: the difference, masked to 12 bits. */
  function Size(head: nat, tail: nat): nat
    requires head < PAGE_SIZE && tail < PAGE_SIZE
  {
    if head >= tail then head - tail else head - tail + PAGE_SIZE
  }

  function Slot(tail: nat, k: nat): nat { (tail + k) % PAGE_SIZE }

  /** What the ring holds, oldest byte first. */
  function Held(ring: seq<Byte>, head: nat, tail: nat): (c: seq<Byte>)
    requires |ring| == PAGE_SIZE && head < PAGE_SIZE && tail < PAGE_SIZE
    ensures |c| == Size(head, tail) && forall k :: 0 <= k < |c| ==> c[k] == ring[Slot(tail, k)]
  {
    seq(Size(head, tail), k requires 0 <= k < Size(head, tail) && |ring| == PAGE_SIZE => ring[Slot(tail, k)])
  }

  lemma Pushed(ring: seq<Byte>, head: nat, tail: nat, b: Byte)
    requires |ring| == PAGE_SIZE && head < PAGE_SIZE && tail < PAGE_SIZE && Size(head, tail) < PAGE_SIZE - 1
    ensures Inc(head) < PAGE_SIZE && Held(ring[head := b], Inc(head), tail) == Held(ring, head, tail) + [b]
  {
    var n := Size(head, tail);
    assert Size(Inc(head), tail) == n + 1 && Slot(tail, n) == head;
    forall k | 0 <= k < n ensures Slot(tail, k) != head {
    }
  }

  lemma Popped(ring: seq<Byte>, head: nat, tail: nat)
    requires |ring| == PAGE_SIZE && head < PAGE_SIZE && tail < PAGE_SIZE && head != tail
    ensures Inc(tail) < PAGE_SIZE && Held(ring, head, tail) == [ring[tail]] + Held(ring, head, Inc(tail))
  {
    var n := Size(head, tail);
    assert Size(head, Inc(tail)) == n - 1;
    forall k | 0 <= k < n - 1 ensures Slot(Inc(tail), k) == Slot(tail, k + 1) {
    }
  }

  /** Where a call stands: returned, or waiting in sleep_on, woken already or not. */
  datatype Call = Returned | Asleep | Woken

  lemma Regroup(out: seq<Byte>, b: Byte, rest: seq<Byte>)
    ensures out + ([b] + rest) == out + [b] + rest
  {
  }

  lemma PrefixOf(c: seq<Byte>, out: seq<Byte>, rest: seq<Byte>)
    requires c == out + rest
    ensures out == c[..|out|] && |c| == |out| + |rest|
  {
  }

  class Fifo {
    const ring: array<Byte>
    var head: nat
    var tail: nat
    var ends: nat             // i_count: 2 while both ends are open
    var reader: Call
    var writer: Call
    ghost var written: seq<Byte>
    ghost var taken: seq<Byte>

    ghost function Contents(): seq<Byte>
      requires ring.Length == PAGE_SIZE && head < PAGE_SIZE && tail < PAGE_SIZE
      reads this, ring
    {
      Held(ring[..], head, tail)
    }

    /** Nothing is lost, doubled or reordered. */
    ghost predicate Lossless()
      reads this, ring
    {
      && ring.Length == PAGE_SIZE && head < PAGE_SIZE && tail < PAGE_SIZE
      && written == taken + Contents()
    }

    /** Whoever sleeps has a reason to, so never both do. */
    ghost predicate Valid()
      reads this, ring
    {
      && Lossless()
      && (reader == Asleep ==> Contents() == [] && ends == 2)
      && (writer == Asleep ==> |Contents()| == PAGE_SIZE - 1 && ends == 2)
    }

    /** get_pipe_inode */
    constructor ()
      ensures Valid() && Contents() == [] && written == [] && ends == 2 && reader == Returned && writer == Returned
    {
      ring := new Byte[PAGE_SIZE](_ => 0);
      head, tail, ends := 0, 0, 2;
      reader, writer := Returned, Returned;
      written, taken := [], [];
    }

    /** wake_up(&i_wait) wakes the head of the queue: there is at most one sleeper. */
    method WakeUp()
      requires !(reader == Asleep && writer == Asleep)
      modifies this`reader, this`writer
      ensures reader == if old(reader) == Asleep then Woken else old(reader)
      ensures writer == if old(writer) == Asleep then Woken else old(writer)
    {
      if reader == Asleep {
        reader := Woken;
      } else if writer == Asleep {
        writer := Woken;
      }
    }

    method Put(b: Byte)
      requires Lossless() && |Contents()| < PAGE_SIZE - 1
      modifies this`head, this`written, ring
      ensures Lossless() && Contents() == old(Contents()) + [b] && written == old(written) + [b]
    {
      Pushed(ring[..], head, tail, b);
      ghost var r := ring[..];
      ring[head] := b;
      assert ring[..] == r[head := b];
      head := Inc(head);
      written := written + [b];
    }

    method Get() returns (b: Byte)
      requires Lossless() && Contents() != []
      modifies this`tail, this`taken
      ensures Lossless() && old(Contents()) == [b] + Contents() && taken == old(taken) + [b]
    {
      Popped(ring[..], head, tail);
      b := ring[tail];
      taken := taken + [b];
      tail := Inc(tail);
    }

    /** read_pipe, from its start or from a wake-up: sleeps while the pipe is empty and the other end open;
        returns what there is, up to `count` bytes, and nothing at the end of the file. */
    method Read(count: nat) returns (out: seq<Byte>)
      requires Valid() && reader != Asleep
      modifies this, ring
      ensures Valid() && written == old(written) && ends == old(ends)
      ensures reader == if old(Contents()) == [] && ends == 2 then Asleep else Returned
      ensures out == old(Contents())[..Least(count, |old(Contents())|)] && taken == old(taken) + out
      ensures writer == if old(writer) == Asleep then Woken else old(writer)
    {
      ghost var c, t := Contents(), taken;
      out := [];
      if head == tail {
        WakeUp();
        reader := if ends != 2 then Returned else Asleep;
        return;
      }
      var left := count;
      while left > 0 && head != tail
        invariant 0 <= left <= count && |out| == count - left && |out| <= |c|
        invariant Lossless() && c == out + Contents() && taken == t + out
        invariant written == old(written) && ends == old(ends) && writer == old(writer) && reader == old(reader)
      {
        var b := Get();
        Regroup(out, b, Contents());
        out := out + [b];
        left := left - 1;
      }
      PrefixOf(c, out, Contents());
      WakeUp();
      reader := Returned;
    }

    /** write_pipe from its start or from a wake-up, with `bytes` still to go: how many it gets rid of
        before it returns or sleeps; `broken` when nobody can read them any more. */
    method Write(bytes: seq<Byte>) returns (n: nat, broken: bool)
      requires Valid() && writer != Asleep && (writer == Woken ==> bytes != [])
      modifies this, ring
      ensures Valid() && n <= |bytes| && taken == old(taken) && ends == old(ends)
      ensures written == old(written) + bytes[..n]
      ensures writer == if n < |bytes| && !broken then Asleep else Returned
      ensures broken ==> ends != 2
      ensures n < |bytes| ==> broken || |Contents()| == 4095
      ensures reader == if old(reader) == Asleep then Woken else old(reader)
    {
      n, broken := 0, false;
      if writer == Returned {
        WakeUp();
        if ends != 2 {
          return 0, true;
        }
      }
      while n < |bytes|
        invariant n <= |bytes| && Lossless() && written == old(written) + bytes[..n]
        invariant taken == old(taken) && ends == old(ends) && writer == old(writer)
        invariant reader ==
          if n == 0 && writer == Woken then old(reader) else if old(reader) == Asleep then Woken else old(reader)
        invariant reader == Asleep ==> Contents() == []
      {
        if Size(head, tail) == PAGE_SIZE - 1 {
          WakeUp();
          if ends != 2 {
            writer := Returned;
            broken := true;
          } else {
            writer := Asleep;
          }
          return;
        }
        Put(bytes[n]);
        assert bytes[..n + 1] == bytes[..n] + [bytes[n]];
        n := n + 1;
        WakeUp();
      }
      WakeUp();
      writer := Returned;
    }

    /** iput of one end. */
    method CloseEnd()
      requires Valid() && ends > 0
      modifies this`ends, this`reader, this`writer
      ensures Valid() && ends == old(ends) - 1 && reader != Asleep && writer != Asleep
      ensures (old(writer) == Asleep ==> writer == Woken) && (old(reader) == Asleep ==> reader == Woken)
      ensures Contents() == old(Contents()) && written == old(written) && taken == old(taken)
      ensures (old(reader) != Asleep ==> reader == old(reader)) && (old(writer) != Asleep ==> writer == old(writer))
    {
      WakeUp();
      ends := ends - 1;
    }

    /** Any interleaving of the two ends: the bytes read, in order, and then the bytes in the ring are the
        bytes that the writer got rid of, in order. */
    method Run(events: seq<Event>) returns (out: seq<Byte>, sent: seq<Byte>)
      requires Valid() && written == [] && writer == Returned && reader != Asleep
      modifies this, ring
      ensures Valid() && sent == out + Contents() && |Contents()| <= 4095
      ensures !(reader == Asleep && writer == Asleep)
    {
      out, sent := [], [];
      var rest: seq<Byte> := [];
      for i := 0 to |events|
        invariant Valid() && written == sent && taken == out && (writer != Returned ==> rest != [])
      {
        match events[i] {
          case Reads(count) =>
            if reader != Asleep {
              var b := Read(count);
              out := out + b;
            }
          case Writes(bytes) =>
            if writer != Asleep {
              if writer == Returned { rest := bytes; }
              var n, broken := Write(rest);
              sent := sent + rest[..n];
              rest := rest[n..];
            }
          case Closes =>
            if ends > 0 { CloseEnd(); }
        }
      }
    }
  }

  /** The reader runs until it returns or sleeps; so does the writer, with new bytes if its last call has
      returned; an end is closed. */
  datatype Event = Reads(count: nat) | Writes(bytes: seq<Byte>) | Closes

  function Least(a: nat, b: nat): nat { if a < b then a else b }
}
