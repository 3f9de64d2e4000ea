// Pipes: a ring of PIPESIZE bytes between any number of writers and readers. A method is what one
// process does from taking the pipe's lock to giving it up, by returning or by sleeping; a call that
// slept goes on with a later turn.
module Pipe {
  import opened Blocks

  const PIPESIZE: nat := 512
  const WRAP: nat := 0x1_0000_0000

  datatype Outcome = Done | Failed | Asleep

  lemma CountersWrap(t: nat, p: nat)
    requires t <= p <= t + PIPESIZE
    ensures t % WRAP == p % WRAP <==> t == p
    ensures p % WRAP == (t % WRAP + PIPESIZE) % WRAP <==> p == t + PIPESIZE
  {
  }

  lemma CounterPlace(c: nat)
    ensures c % WRAP % PIPESIZE == c % PIPESIZE
    ensures (c % WRAP + 1) % WRAP == (c + 1) % WRAP
  {
  }

  /** How far a turn of pipewrite gets from i0 while the pipe has a reader: to the end, to where it is
      killed, to memory it cannot read, or until the ring, with `room` places, is full. */
  function Place(i0: nat, n: nat, readable: nat, killed: nat, room: int): (i: int)
    requires i0 <= n && room >= 0
    ensures i0 <= i <= n && i <= i0 + room && (i > i0 ==> i <= killed && i <= readable)
    ensures i < n ==> i >= killed || i >= readable || i == i0 + room
  {
    var end := if i0 + room < n then i0 + room else n;
    var stop := if killed < readable then killed else readable;
    if end <= stop then end else if stop < i0 then i0 else stop
  }

  lemma PlacesDiffer(a: nat, b: nat)
    requires a < b < a + PIPESIZE
    ensures a % PIPESIZE != b % PIPESIZE
  {
  }

  class Ring {
    const data: array<byte>
    var nread: uint
    var nwrite: uint
    var readopen: bool
    var writeopen: bool

    ghost var put: seq<byte>     // every byte ever put in
    ghost var taken: seq<byte>   // every byte ever taken out

    /** At most PIPESIZE bytes are pending, they are in the ring, and what has been taken out is, in
        order, the first of what was put in; the 32-bit counters may have wrapped any number of times. */
    ghost predicate Valid()
      reads this, data
    {
      && data.Length == PIPESIZE
      && |taken| <= |put| <= |taken| + PIPESIZE
      && taken == put[..|taken|]
      && nread == |taken| % WRAP && nwrite == |put| % WRAP
      && (forall k :: |taken| <= k < |put| ==> data[k % PIPESIZE] == put[k])
    }

    constructor ()
      ensures Valid() && fresh(data) && put == [] == taken && readopen && writeopen
    {
      data := new byte[PIPESIZE](_ => 0);
      nread, nwrite, readopen, writeopen, put, taken := 0, 0, true, true, [], [];
    }

    /** Close one end; true when the other one is closed already and the pipe is freed. */
    method Close(writable: bool) returns (freed: bool)
      requires Valid()
      modifies this`readopen, this`writeopen
      ensures Valid()
      ensures readopen == (old(readopen) && writable) && writeopen == (old(writeopen) && !writable)
      ensures freed <==> !readopen && !writeopen
    {
      if writable {
        writeopen := false;
      } else {
        readopen := false;
      }
      freed := !readopen && !writeopen;
    }

    /** Put one byte in. */
    method Put(ch: byte)
      requires Valid() && |put| < |taken| + PIPESIZE
      modifies this`nwrite, this`put, data
      ensures Valid() && put == old(put) + [ch]
    {
      CounterPlace(|put|);
      forall k | |taken| <= k < |put|
        ensures k % PIPESIZE != |put| % PIPESIZE
      {
        PlacesDiffer(k, |put|);
      }
      data[nwrite % PIPESIZE] := ch;
      nwrite := (nwrite + 1) % WRAP;
      put := put + [ch];
    }

    /** Take one byte out. */
    method Take() returns (ch: byte)
      requires Valid() && |taken| < |put|
      modifies this`nread, this`taken
      ensures Valid() && ch == put[|old(taken)|] && taken == old(taken) + [ch]
    {
      CounterPlace(|taken|);
      ch := data[nread % PIPESIZE];
      nread := (nread + 1) % WRAP;
      taken := taken + [ch];
    }

    /** The bytes that can be put in before the ring is full. */
    ghost function Room(): int
      reads this
    {
      |taken| + PIPESIZE - |put|
    }

    /** A turn of pipewrite that has i0 bytes of src behind it. The writer can read the first
        `readable` bytes of its memory and finds itself killed from byte `killed` on. It goes as far as
        the bytes, the reader, the ring and its memory let it; what stops it there is the outcome. */
    method WriteTurn(src: seq<byte>, i0: nat, readable: nat, killed: nat) returns (out: Outcome, i: nat)
      requires Valid() && i0 <= |src|
      modifies this`nwrite, this`put, data
      ensures Valid() && i0 <= i <= |src| && put == old(put) + src[i0..i]
      ensures i == if readopen then Place(i0, |src|, readable, killed, old(Room())) else i0
      ensures out.Failed? <==> i < |src| && (!readopen || killed <= i)
      ensures out.Asleep? <==> i < |src| && readopen && i < killed && Room() == 0
      ensures out.Done? <==> i == |src| || (readopen && i < killed && readable <= i && Room() > 0)
    {
      i := i0;
      while i < |src|
        invariant Valid() && i0 <= i <= |src| && put == old(put) + src[i0..i]
        invariant i > i0 ==> readopen && i <= killed && i <= readable
      {
        if !readopen || killed <= i {
          return Failed, i;
        }
        CountersWrap(|taken|, |put|);
        if nwrite == (nread + PIPESIZE) % WRAP {
          return Asleep, i;
        } else {
          if readable <= i {
            break;
          }
          Put(src[i]);
          i := i + 1;
        }
      }
      out := Done;
    }

    /** A turn of piperead for n bytes into memory of which `room` bytes are writable. Returns the
        bytes the reader gets; when its memory runs out one byte more is taken and lost. */
    method ReadTurn(n: nat, room: nat, killed: bool) returns (out: Outcome, got: seq<byte>)
      requires Valid()
      modifies this`nread, this`taken
      ensures Valid()
      ensures out.Failed? <==> |old(taken)| == |put| && writeopen && killed
      ensures out.Asleep? <==> |old(taken)| == |put| && writeopen && !killed
      ensures !out.Done? ==> got == [] && taken == old(taken)
      ensures out.Done? ==>
                && |got| == Least(n, room, |put| - |old(taken)|)
                && got == put[|old(taken)|..|old(taken)| + |got|]
                && |taken| == |old(taken)| + |got| + if room < n && room < |put| - |old(taken)| then 1 else 0
    {
      got := [];
      CountersWrap(|taken|, |put|);
      if nread == nwrite && writeopen {
        return if killed then Failed else Asleep, [];
      }
      var i := 0;
      ghost var t0 := |taken|;
      while i < n
        invariant Valid() && 0 <= i <= n && i <= room && t0 + i == |taken| && |got| == i
        invariant got == put[t0..t0 + i]
      {
        CountersWrap(|taken|, |put|);
        if nread == nwrite {
          break;
        }
        var ch := Take();
        if i >= room {
          break;
        }
        got := got + [ch];
        i := i + 1;
      }
      out := Done;
    }
  }

  function Least(a: nat, b: nat, c: nat): nat {
    if a <= b && a <= c then a else if b <= c then b else c
  }
}
