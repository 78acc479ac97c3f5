/** Pipes: a ring buffer with wrapping counters, one method per stretch of code under the pipe's lock. */
module Pipe {
  const PIPESIZE: nat := 512
  const UINTMOD: nat := 0x1_0000_0000

  /** How a stretch under the lock ends: asleep (to be resumed), or with the call's result; -1 is Failed. */
  datatype Outcome = Asleep | Failed | Returned(n: nat)

  /** A stretch of some process's pipewrite, piperead or pipeclose, or a kill that wakes a sleeper. */
  datatype Event =
    | Write(me: nat, src: seq<char>, i: nat, n: nat, killed: bool)
    | Read(me: nat, n: nat, room: nat, killed: bool)
    | Close(writable: bool)
    | Kill(p: nat)

  /** More is asked for than an empty pipe holds, and as much as it holds can be read. */
  predicate Overfills(src: seq<char>, i: nat, n: nat) { n > i + PIPESIZE && |src| >= i + PIPESIZE }

  /** A writer that, finding readers asleep, would fill the pipe and give up; open is the read end. */
  predicate Strands(e: Event, open: bool) { e.Write? && Overfills(e.src, e.i, e.n) && (e.killed || !open) }

  /** The k-th event is such a writer, when the read end starts as given. */
  predicate CanStrand(events: seq<Event>, k: nat, open: bool)
    requires k < |events|
  {
    Strands(events[k], open && Close(false) !in events[..k])
  }

  /** A destination that can take fewer bytes than are asked for and there. */
  predicate Drops(n: nat, room: nat, held: nat) { room < n && room < held }

  // ----- the pipe as a bounded queue -----

  function Min(a: nat, b: nat): nat { if a < b then a else b }

  /** What an event puts into a pipe that holds q: a writer's next bytes, as many as can be read and fit. */
  function Puts(q: seq<char>, e: Event): seq<char>
    requires Resumable(e) && |q| <= PIPESIZE
  {
    if e.Write? then e.src[e.i..e.i + Min(Min(e.n, |e.src|) - e.i, PIPESIZE - |q|)] else []
  }

  /** What an event delivers: the first bytes of q, as many as are asked for and the destination takes. */
  function Gets(q: seq<char>, e: Event): seq<char> {
    if e.Read? then q[..Min(Min(e.n, e.room), |q|)] else []
  }

  /** A read whose destination refuses a byte that is there; that byte has already been taken out. */
  predicate Loses(q: seq<char>, e: Event) { e.Read? && Drops(e.n, e.room, |q|) }

  function Left(q: seq<char>, e: Event): (r: seq<char>)
    requires Resumable(e) && |q| <= PIPESIZE
    ensures |r| <= PIPESIZE
  {
    q[|Gets(q, e)| + if Loses(q, e) then 1 else 0..] + Puts(q, e)
  }

  predicate AllResumable(events: seq<Event>) { forall k :: 0 <= k < |events| ==> Resumable(events[k]) }

  /** The queue after a run, and what the run's events delivered and put in. */
  function QueueRun(q: seq<char>, events: seq<Event>): (r: seq<char>)
    requires AllResumable(events) && |q| <= PIPESIZE
    ensures |r| <= PIPESIZE
  {
    if events == [] then q else Left(QueueRun(q, events[..|events| - 1]), events[|events| - 1])
  }

  function QueueGets(q: seq<char>, events: seq<Event>): seq<char>
    requires AllResumable(events) && |q| <= PIPESIZE
  {
    if events == [] then []
    else
      var before := events[..|events| - 1];
      QueueGets(q, before) + Gets(QueueRun(q, before), events[|events| - 1])
  }

  function QueuePuts(q: seq<char>, events: seq<Event>): seq<char>
    requires AllResumable(events) && |q| <= PIPESIZE
  {
    if events == [] then []
    else
      var before := events[..|events| - 1];
      QueuePuts(q, before) + Puts(QueueRun(q, before), events[|events| - 1])
  }

  /** No read of the run loses a byte. */
  predicate Lossless(q: seq<char>, events: seq<Event>)
    requires AllResumable(events) && |q| <= PIPESIZE
  {
    events == [] ||
    (var before := events[..|events| - 1];
     Lossless(q, before) && !Loses(QueueRun(q, before), events[|events| - 1]))
  }

  lemma {:induction false} NothingGained(q: seq<char>, events: seq<Event>)
    requires AllResumable(events) && |q| <= PIPESIZE
    ensures |QueueGets(q, events)| + |QueueRun(q, events)| <= |q| + |QueuePuts(q, events)|
    ensures |QueueGets(q, events)| + |QueueRun(q, events)| == |q| + |QueuePuts(q, events)| <==> Lossless(q, events)
  {
    if events != [] { NothingGained(q, events[..|events| - 1]); }
  }

  /**
   First in, first out, over any interleaving: what readers got, followed by what is still in
   the pipe, is what was in it at the start followed by what writers put in, if and only if no
   read lost a byte.
   */
  lemma {:induction false} FifoIff(q: seq<char>, events: seq<Event>)
    requires AllResumable(events) && |q| <= PIPESIZE
    ensures QueueGets(q, events) + QueueRun(q, events) == q + QueuePuts(q, events) <==> Lossless(q, events)
  {
    NothingGained(q, events);
    if events != [] && Lossless(q, events) {
      var before, e := events[..|events| - 1], events[|events| - 1];
      FifoIff(q, before);
      var m := QueueRun(q, before);
      hide Gets, Left, Puts, Loses;
      Passes(m, e);
      Regroup(QueueGets(q, before), m, q, QueuePuts(q, before), Gets(m, e), Left(m, e), Puts(m, e));
    }
  }

  lemma Passes(q: seq<char>, e: Event)
    requires Resumable(e) && |q| <= PIPESIZE && !Loses(q, e)
    ensures Gets(q, e) + Left(q, e) == q + Puts(q, e)
  {
  }

  lemma Regroup(a: seq<char>, m: seq<char>, q: seq<char>, b: seq<char>, g: seq<char>, l: seq<char>, p: seq<char>)
    requires a + m == q + b && g + l == m + p
    ensures (a + g) + l == q + (b + p)
  {
    assert (a + g) + l == a + (g + l);
    assert a + (m + p) == (a + m) + p;
    assert (q + b) + p == q + (b + p);
  }

  /** Readers whose destinations take all they ask for never lose a byte. */
  lemma {:induction false} RoomyReaders(q: seq<char>, events: seq<Event>)
    requires AllResumable(events) && |q| <= PIPESIZE
    requires forall k :: 0 <= k < |events| && events[k].Read? ==> events[k].n <= events[k].room
    ensures Lossless(q, events)
  {
    if events != [] { RoomyReaders(q, events[..|events| - 1]); }
  }

  predicate Resumable(e: Event) { e.Write? ==> e.i <= e.n && e.i <= |e.src| }

  class Pipe {
    var data: array<char>
    var nread: nat
    var nwrite: nat
    var readopen: bool
    var writeopen: bool
    var readers: set<nat>     // processes asleep on nread
    var writers: set<nat>     // processes asleep on nwrite
    var freed: bool           // the page has been given back
    ghost var produced: seq<char>   // every byte ever put in
    ghost var consumed: nat         // how many of them were taken out

    /** The buffer holds the bytes put in and not yet taken out, and the counters are theirs. */
    ghost predicate Ring()
      reads this, data
    {
      && data.Length == PIPESIZE
      && consumed <= |produced| <= consumed + PIPESIZE
      && nread == consumed % UINTMOD && nwrite == |produced| % UINTMOD
      && (forall k :: consumed <= k < |produced| ==> data[k % PIPESIZE] == produced[k])
    }

    /**
     When nobody has the lock: also, no writer sleeps while there is room, nobody sleeps on a
     closed end, and the page has been freed exactly when both ends are closed.
     */
    ghost predicate Valid()
      reads this, data
    {
      && Ring() && (writers != {} ==> |produced| == consumed + PIPESIZE && readopen)
      && (readers != {} ==> writeopen) && (freed <==> !readopen && !writeopen)
    }

    /** No reader sleeps on a pipe that has something for it. */
    ghost predicate ReadersServed()
      reads this
    {
      readers != {} ==> |produced| == consumed && writeopen
    }

    constructor ()
      ensures Valid() && produced == [] && consumed == 0 && readopen && writeopen && readers == {} && writers == {}
      ensures fresh(data) && !freed
    {
      data := new char[PIPESIZE];
      freed := false;
      nread, nwrite, readopen, writeopen, readers, writers := 0, 0, true, true, {}, {};
      produced, consumed := [], 0;
    }

    /**
     pipewrite from byte i on, until it sleeps or returns; src is as much as can be read of
     the source. A killed writer that finds the pipe full does not wake the readers.
     */
    method WriteStretch(me: nat, src: seq<char>, i0: nat, n: nat, killed: bool) returns (r: Outcome, i: nat)
      requires Valid() && i0 <= n && i0 <= |src|
      modifies this, data
      ensures Valid() && data == old(data) && consumed == old(consumed) && readopen == old(readopen)
      ensures writeopen == old(writeopen)
      ensures i0 <= i <= n && i <= |src| && produced == old(produced) + src[i0..i]
      ensures r.Asleep? ==>
                && i < n && |produced| == consumed + PIPESIZE && readopen && !killed && readers == {}
                && writers == old(writers) + {me}
      ensures r.Failed? ==>
                i < n && |produced| == consumed + PIPESIZE && (killed || !readopen) && readers == old(readers)
      ensures r.Returned? ==> r.n == i && (i == n || i == |src|) && readers == {}
      ensures !r.Asleep? ==> writers == old(writers)
      ensures old(ReadersServed()) ==>
                (ReadersServed() <==> !((killed || !readopen) && old(readers) != {} && Overfills(src, i0, n)))
    {
      i := i0;
      assert src[i0..i] == [];
      while i < n
        invariant Valid() && data == old(data) && consumed == old(consumed) && nread == old(nread)
        invariant readopen == old(readopen) && writeopen == old(writeopen) && readers == old(readers)
        invariant writers == old(writers)
        invariant i0 <= i <= n && i <= |src| && produced == old(produced) + src[i0..i]
      {
        FullTest(|produced|, consumed);
        if nwrite == (nread + PIPESIZE) % UINTMOD {
          if !readopen || killed { return Failed, i; }
          readers := {};
          writers := writers + {me};
          return Asleep, i;
        }
        if i == |src| { break; }
        Put(src[i]);
        i := i + 1;
      }
      readers := {};
      r := Returned(i);
    }

    method Put(ch: char)
      requires Ring() && |produced| < consumed + PIPESIZE
      modifies this`nwrite, this`produced, data
      ensures Ring() && produced == old(produced) + [ch]
    {
      Slots(|produced|, consumed);
      data[nwrite % PIPESIZE] := ch;
      nwrite := (nwrite + 1) % UINTMOD;
      produced := produced + [ch];
    }

    /**
     piperead, until it sleeps or returns; room is how many bytes the destination can take. A
     byte is taken out before it is copied, so the one the destination refuses is lost.
     */
    method ReadStretch(me: nat, n: nat, room: nat, killed: bool) returns (r: Outcome, got: seq<char>)
      requires Valid()
      modifies this
      ensures Valid() && data == old(data) && produced == old(produced) && readopen == old(readopen)
      ensures writeopen == old(writeopen)
      ensures old(consumed) <= consumed && got <= produced[old(consumed)..consumed]
      ensures r.Asleep? || r.Failed? <==> old(consumed) == |produced| && writeopen
      ensures r.Asleep? ==> !killed && got == [] && consumed == old(consumed) && readers == old(readers) + {me}
      ensures r.Failed? ==> killed && got == [] && consumed == old(consumed)
      ensures !r.Returned? ==> writers == old(writers)
      ensures r.Returned? ==>
                r.n == |got| && writers == {} && |got| <= n && |got| <= room && consumed <= old(consumed) + |got| + 1
      ensures r.Returned? ==>
                (got == produced[old(consumed)..consumed] <==> !Drops(n, room, |produced| - old(consumed)))
      ensures r.Returned? ==> (|got| < n && |got| < room ==> consumed == |produced|)
      ensures !r.Asleep? ==> readers == old(readers)
    {
      got := [];
      EmptyTest(|produced|, consumed);
      if nread == nwrite && writeopen {
        if killed { return Failed, []; }
        readers := readers + {me};
        return Asleep, [];
      }
      var i := 0;
      while i < n
        invariant 0 <= i <= n && i == |got| && i <= room && Ring() && data == old(data) && produced == old(produced)
        invariant nwrite == old(nwrite) && freed == old(freed)
        invariant readopen == old(readopen) && writeopen == old(writeopen) && readers == old(readers)
        invariant consumed == old(consumed) + i && got == produced[old(consumed)..consumed]
      {
        EmptyTest(|produced|, consumed);
        if nread == nwrite { break; }
        var ch := Get();
        assert i == room ==> |produced[old(consumed)..consumed]| == i + 1;
        if i == room { break; }
        got := got + [ch];
        i := i + 1;
      }
      writers := {};
      r := Returned(i);
    }

    method Get() returns (ch: char)
      requires Ring() && consumed < |produced|
      modifies this`nread, this`consumed
      ensures Ring() && consumed == old(consumed) + 1 && ch == produced[old(consumed)]
    {
      Slots(consumed, consumed);
      ch := data[nread % PIPESIZE];
      nread := (nread + 1) % UINTMOD;
      consumed := consumed + 1;
    }

    method CloseEnd(writable: bool)
      requires Valid()
      modifies this`readopen, this`writeopen, this`readers, this`writers, this`freed
      ensures freed ==> readers == {} && writers == {}
      ensures Valid() && (if writable then !writeopen && readers == {} else !readopen && writers == {})
      ensures writable ==> readopen == old(readopen) && writers == old(writers)
      ensures !writable ==> writeopen == old(writeopen) && readers == old(readers)
    {
      if writable {
        writeopen := false;
        readers := {};
      } else {
        readopen := false;
        writers := {};
      }
      if !readopen && !writeopen { freed := true; }
    }

    /** kill makes a sleeping process runnable; it then resumes its stretch as a killed one. */
    method Wake(p: nat)
      requires Valid()
      modifies this`readers, this`writers
      ensures Valid() && readers == old(readers) - {p} && writers == old(writers) - {p}
    {
      readers, writers := readers - {p}, writers - {p};
    }

    /** The bytes in the pipe. */
    ghost function Queue(): seq<char>
      reads this
      requires consumed <= |produced|
    {
      produced[consumed..]
    }

    /**
     One stretch of any process is one step of the bounded queue. Exactly the writers named can
     leave readers asleep on data, and nobody sleeps on a pipe whose page has been freed.
     */
    method Step(e: Event) returns (got: seq<char>)
      requires Valid() && Resumable(e)
      modifies this, data
      ensures Valid() && data == old(data) && Queue() == Left(old(Queue()), e) && got == Gets(old(Queue()), e)
      ensures produced == old(produced) + Puts(old(Queue()), e)
      ensures readopen == (old(readopen) && e != Close(false)) && writeopen == (old(writeopen) && e != Close(true))
      ensures freed ==> readers == {} && writers == {}
      ensures old(ReadersServed()) ==> (ReadersServed() <==> !(Strands(e, old(readopen)) && old(readers) != {}))
    {
      hide Gets, Puts, Left, Loses, Ring;
      got := [];
      Held();
      ghost var q := Queue();
      Idle(q, e);
      match e {
        case Write(me, src, i, n, killed) =>
          var r, i' := WriteStretch(me, src, i, n, killed);
          Held();
          WriteIs(q, e, i');
        case Read(me, n, room, killed) =>
          var r;
          r, got := ReadStretch(me, n, room, killed);
          Held();
          ReadDone(q, e, r, got, consumed - old(consumed));
        case Close(writable) =>
          CloseEnd(writable);
        case Kill(p) =>
          Wake(p);
      }
    }

    /**
     Any interleaving of readers and writers is a run of the bounded queue. Readers stay served
     unless a writer of more than a pipe's worth is killed or finds the read end closed.
     */
    method Run(events: seq<Event>) returns (got: seq<char>)
      requires Valid() && ReadersServed() && AllResumable(events)
      modifies this, data
      ensures Valid() && |old(Queue())| <= PIPESIZE
      ensures Queue() == QueueRun(old(Queue()), events) && got == QueueGets(old(Queue()), events)
      ensures produced == old(produced) + QueuePuts(old(Queue()), events)
      ensures freed ==> readers == {} && writers == {}
      ensures (forall k: nat :: k < |events| ==> !CanStrand(events, k, old(readopen))) ==> ReadersServed()
    {
      hide Strands, Ring, Left, Gets, Puts;
      Held();
      ghost var q := Queue();
      got := [];
      var k := 0;
      while k < |events|
        invariant 0 <= k <= |events| && Valid() && data == old(data) && consumed <= |produced|
        invariant Queue() == QueueRun(q, events[..k]) && got == QueueGets(q, events[..k])
        invariant produced == old(produced) + QueuePuts(q, events[..k])
        invariant readopen == (old(readopen) && Close(false) !in events[..k])
        invariant (forall j: nat :: j < k ==> !CanStrand(events, j, old(readopen))) ==> ReadersServed()
      {
        var one := Step(events[k]);
        Held();
        assert !CanStrand(events, k, old(readopen)) ==>
            !Strands(events[k], old(readopen) && Close(false) !in events[..k]);
        assert events[..k + 1] == events[..k] + [events[k]];
        assert events[..k + 1][..k] == events[..k];
        got := got + one;
        k := k + 1;
      }
      assert events[..k] == events;
    }

    lemma Held()
      requires Valid()
      ensures consumed <= |produced| && |Queue()| <= PIPESIZE
    {
    }
  }

  lemma Idle(q: seq<char>, e: Event)
    requires Resumable(e) && |q| <= PIPESIZE
    ensures !e.Read? ==> Gets(q, e) == [] && Left(q, e) == q + Puts(q, e)
    ensures !e.Write? ==> Puts(q, e) == []
  {
  }

  /** What pipewrite puts in, in terms of the queue: it stops at its end, at its source's, or when the pipe is full. */
  lemma WriteIs(q: seq<char>, e: Event, i: nat)
    requires e.Write? && Resumable(e) && e.i <= i <= e.n && i <= |e.src| && |q| + (i - e.i) <= PIPESIZE
    requires i == e.n || i == |e.src| || |q| + (i - e.i) == PIPESIZE
    ensures e.src[e.i..i] == Puts(q, e)
  {
  }

  lemma ReadDone(q: seq<char>, e: Event, r: Outcome, got: seq<char>, taken: nat)
    requires e.Read? && taken <= |q| <= PIPESIZE && got <= q[..taken] && taken <= |got| + 1
    requires r.Asleep? || r.Failed? ==> q == [] && got == []
    requires r.Returned? ==> |got| <= e.n && |got| <= e.room
    requires r.Returned? ==> (got == q[..taken] <==> !Drops(e.n, e.room, |q|))
    requires r.Returned? && |got| < e.n && |got| < e.room ==> taken == |q|
    ensures got == Gets(q, e) && q[taken..] == Left(q, e)
  {
    if r.Returned? { ReadIs(q, e, got, taken); }
  }

  /** What piperead delivers and takes out, in terms of the queue. */
  lemma ReadIs(q: seq<char>, e: Event, got: seq<char>, taken: nat)
    requires e.Read? && taken <= |q| <= PIPESIZE && got <= q[..taken] && taken <= |got| + 1
    requires |got| <= e.n && |got| <= e.room && (got == q[..taken] <==> !Loses(q, e))
    requires |got| < e.n && |got| < e.room ==> taken == |q|
    ensures got == Gets(q, e) && q[taken..] == Left(q, e)
  {
  }

  /** A killed writer does leave a reader asleep on a full pipe. */
  method StrandedReader(src: seq<char>) returns (p: Pipe)
    requires |src| == PIPESIZE + 1
    ensures p.Valid() && !p.ReadersServed() && p.readers == {1} && |p.produced| == p.consumed + PIPESIZE
  {
    p := new Pipe();
    var r, got := p.ReadStretch(1, 1, 1, false);
    var w, i := p.WriteStretch(2, src, 0, |src|, true);
  }

  /** A reader whose destination takes one byte of two loses the second. */
  method LostByte() returns (p: Pipe, got: seq<char>)
    ensures p.Valid() && p.produced == "ab" && got == "a" && p.consumed == 2
  {
    p := new Pipe();
    var w, i := p.WriteStretch(1, "ab", 0, 2, false);
    var r;
    r, got := p.ReadStretch(2, 2, 1, false);
    assert p.produced[0..2] == "ab";
  }

  /** The counters tell full and empty apart across wrap-around. */
  lemma FullTest(w: nat, r: nat)
    requires r <= w <= r + PIPESIZE
    ensures w % UINTMOD == (r % UINTMOD + PIPESIZE) % UINTMOD <==> w == r + PIPESIZE
  {
    Wrap(r, PIPESIZE);
    Apart(r + PIPESIZE, w);
  }

  lemma EmptyTest(w: nat, r: nat)
    requires r <= w <= r + PIPESIZE
    ensures r % UINTMOD == w % UINTMOD <==> w == r
  {
    Apart(w, r);
  }

  lemma Wrap(a: nat, b: nat)
    requires b < UINTMOD
    ensures (a % UINTMOD + b) % UINTMOD == (a + b) % UINTMOD
  {
  }

  lemma Apart(a: nat, b: nat)
    requires b <= a <= b + PIPESIZE
    ensures a % UINTMOD == b % UINTMOD <==> a == b
  {
  }

  /** The slot of the k-th byte, from a wrapped counter; bytes in the pipe have slots of their own. */
  lemma Slots(k: nat, from: nat)
    requires from <= k < from + PIPESIZE
    ensures (k % UINTMOD) % PIPESIZE == k % PIPESIZE && (k % UINTMOD + 1) % UINTMOD == (k + 1) % UINTMOD
    ensures forall j :: from <= j < k ==> j % PIPESIZE != k % PIPESIZE
  {
  }
}
