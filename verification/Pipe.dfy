/** pipe.c: the ring buffer is a FIFO. A method runs from taking pi->lock to giving it up, by
    sleeping or by returning, so every interleaving of readers and writers is a sequence of calls. */
module Pipes {
  import opened Params

  const PIPESIZE: nat := 512

  /** How a stretch of pipewrite or piperead ends. */
  datatype Outcome = Failed | Asleep | Returned(n: nat)

  /** The bytes of s that arrived: a false fate is a byte taken from the pipe whose copy to
      user memory failed. */
  function Delivered(s: seq<Byte>, fate: seq<bool>): seq<Byte>
    requires |s| == |fate|
  {
    if s == [] then []
    else Delivered(s[..|s| - 1], fate[..|s| - 1]) + (if fate[|s| - 1] then [s[|s| - 1]] else [])
  }

  lemma DeliveredNext(s: seq<Byte>, fate: seq<bool>, x: Byte, ok: bool)
    requires |s| == |fate|
    ensures Delivered(s + [x], fate + [ok]) == Delivered(s, fate) + (if ok then [x] else [])
  {
    assert (s + [x])[..|s|] == s && (fate + [ok])[..|s|] == fate;
  }

  lemma Remainder(n: nat, q: nat, r: nat)
    requires n == PIPESIZE * q + r && r < PIPESIZE
    ensures n % PIPESIZE == r
  {
  }

  /** Counting past 32 bits loses nothing the ring needs. */
  lemma Positions(n: nat)
    ensures (n % WORD) % PIPESIZE == n % PIPESIZE
    ensures (n % WORD + 1) % WORD == (n + 1) % WORD
  {
    var q, r := n / WORD, n % WORD;
    assert n == WORD * q + r;
    assert r == PIPESIZE * (r / PIPESIZE) + r % PIPESIZE;
    Remainder(n, 8388608 * q + r / PIPESIZE, r % PIPESIZE);
    assert r + 1 == WORD || r + 1 < WORD;
  }

  /** Within one ring's length, positions are all different. */
  lemma RingApart(i: nat, j: nat)
    requires i < j < i + PIPESIZE
    ensures i % PIPESIZE != j % PIPESIZE
  {
    assert i == PIPESIZE * (i / PIPESIZE) + i % PIPESIZE;
    assert j == PIPESIZE * (j / PIPESIZE) + j % PIPESIZE;
  }

  /** The tests for a full and an empty pipe mean what they say, wrapped counters or not. */
  lemma FullOrEmpty(r: nat, w: nat)
    requires r <= w <= r + PIPESIZE
    ensures w % WORD == (r % WORD + PIPESIZE) % WORD <==> w == r + PIPESIZE
    ensures r % WORD == w % WORD <==> r == w
  {
    assert r == WORD * (r / WORD) + r % WORD;
    assert w == WORD * (w / WORD) + w % WORD;
  }

  class Pipe {
    const data: array<Byte>
    var nread: nat
    var nwrite: nat
    var readopen: bool
    var writeopen: bool
    ghost var written: seq<Byte>      // every byte ever written
    ghost var taken: nat              // how many of them have been read
    ghost var fate: seq<bool>         // which of those reached user memory
    ghost var received: seq<Byte>     // what the readers got

    ghost predicate Valid()
      reads this, data
    {
      && data.Length == PIPESIZE && taken <= |written| <= taken + PIPESIZE && |fate| == taken
      && nread == taken % WORD && nwrite == |written| % WORD
      && (forall k :: taken <= k < |written| ==> data[k % PIPESIZE] == written[k])
      && received == Delivered(written[..taken], fate)
    }

    constructor ()
      ensures Valid() && written == [] && taken == 0 && readopen && writeopen && fresh(data)
    {
      data := new Byte[PIPESIZE](i => 0);
      nread, nwrite, readopen, writeopen := 0, 0, true, true;
      written, taken, fate, received := [], 0, [], [];
    }

    /** The bytes in the pipe. */
    ghost function Held(): seq<Byte>
      reads this, data
      requires Valid()
    {
      written[taken..]
    }

    /** One byte into the ring. */
    method Push(ch: Byte)
      requires Valid() && |written| < taken + PIPESIZE
      modifies data, this`nwrite, this`written
      ensures Valid() && written == old(written) + [ch]
    {
      Positions(|written|);
      forall k | taken <= k < |written| ensures k % PIPESIZE != |written| % PIPESIZE {
        RingApart(k, |written|);
      }
      data[nwrite % PIPESIZE] := ch;
      nwrite := (nwrite + 1) % WORD;
      assert written[..taken] == (written + [ch])[..taken];
      written := written + [ch];
    }

    /** One byte out of the ring; ok says whether copying it to user memory will succeed. */
    method Pop(ok: bool) returns (ch: Byte)
      requires Valid() && taken < |written|
      modifies this`nread, this`taken, this`fate, this`received
      ensures Valid() && taken == old(taken) + 1 && ch == written[old(taken)]
      ensures fate == old(fate) + [ok] && received == old(received) + if ok then [ch] else []
    {
      Positions(taken);
      ch := data[nread % PIPESIZE];
      nread := (nread + 1) % WORD;
      DeliveredNext(written[..taken], fate, ch, ok);
      assert written[..taken + 1] == written[..taken] + [ch];
      received := received + if ok then [ch] else [];
      taken, fate := taken + 1, fate + [ok];
    }

    /** pipewrite from position i of the source on. Byte `fault` of the source cannot be read
        (none, if it is the length); the writer sees that it was killed from position `stop` on. */
    method Write(src: seq<Byte>, start: nat, fault: nat, stop: nat) returns (i: nat, out: Outcome)
      requires Valid() && start <= fault <= |src|
      modifies data, this`nwrite, this`written
      ensures Valid() && start <= i <= fault && written == old(written) + src[start..i]
      ensures i > start ==> readopen && i <= stop
      ensures out == if i == |src| then Returned(i) else if !readopen || i >= stop then Failed
                     else if |Held()| == PIPESIZE then Asleep else Returned(i)
      ensures out.Returned? ==> i == |src| || i == fault
    {
      i := start;
      while i < |src|
        invariant Valid() && start <= i <= fault && written == old(written) + src[start..i]
        invariant i > start ==> readopen && i <= stop
      {
        if !readopen || i >= stop {
          return i, Failed;
        }
        FullOrEmpty(taken, |written|);
        if nwrite == (nread + PIPESIZE) % WORD {
          return i, Asleep;
        }
        if i == fault {
          break;
        }
        Push(src[i]);
        assert src[start..i + 1] == src[start..i] + [src[i]];
        i := i + 1;
      }
      out := Returned(i);
    }

    /** piperead of at most n bytes. Copying byte `fault` to user memory fails, if it gets that far. */
    method Read(n: nat, fault: nat, killed: bool) returns (bytes: seq<Byte>, out: Outcome)
      requires Valid()
      modifies this`nread, this`taken, this`fate, this`received
      ensures Valid() && received == old(received) + bytes
      ensures old(Held()) == [] && writeopen ==>
              bytes == [] && taken == old(taken) && out == if killed then Failed else Asleep
      ensures !(old(Held()) == [] && writeopen) ==>
                && out == Returned(|bytes|) && bytes <= old(Held()) && |bytes| == Least(n, fault, |old(Held())|)
                && taken == old(taken) + |bytes|
                            + if |bytes| == fault && fault < n && fault < |old(Held())| then 1 else 0
    {
      FullOrEmpty(taken, |written|);
      bytes := [];
      if nread == nwrite && writeopen {
        return bytes, if killed then Failed else Asleep;
      }
      var i := 0;
      while i < n
        invariant Valid() && i == |bytes| <= n && i <= fault && i <= |old(Held())|
        invariant taken == old(taken) + i && bytes == old(Held())[..i] && received == old(received) + bytes
      {
        FullOrEmpty(taken, |written|);
        if nread == nwrite {
          break;
        }
        var ch := Pop(i < fault);
        if i == fault {
          break;
        }
        bytes, i := bytes + [ch], i + 1;
      }
      out := Returned(i);
    }

    /** pipeclose: the pipe is freed when the second end closes. */
    method Close(writable: bool) returns (freed: bool)
      requires Valid()
      modifies this`readopen, this`writeopen
      ensures Valid() && readopen == (old(readopen) && writable) && writeopen == (old(writeopen) && !writable)
      ensures freed <==> !readopen && !writeopen
    {
      if writable {
        writeopen := false;
      } else {
        readopen := false;
      }
      freed := !readopen && !writeopen;
    }
  }

  function Least(a: nat, b: nat, c: nat): nat {
    if a <= b && a <= c then a else if b <= c then b else c
  }
}
