/** What one call of pipewrite or piperead does, in every run: the bytes that appear in the ring while the
    writer has the lock are those of its buffer, in order, and the bytes that leave the ring while the
    reader has the lock are those it finds in its buffer. */
module PipeCalls {
  import opened Blocks
  import opened Pipe
  import opened PipeSync

  // ---- What an observer of the ring sees

  /** The byte that a step puts into the ring. */
  function PutBy(s: State, t: State): seq<byte> {
    if t.b.ring.nwrite == s.b.ring.nwrite || |t.b.ring.data| != 512 then []
    else [t.b.ring.data[s.b.ring.nwrite % 512]]
  }

  /** The byte that a step takes out of the ring. */
  function TakenBy(s: State, t: State): seq<byte> {
    if t.b.ring.nread == s.b.ring.nread || |s.b.ring.data| != 512 then []
    else [s.b.ring.data[s.b.ring.nread % 512]]
  }

  /** The bytes put in from state `b` to state `m` of the run while process `p` had the lock. */
  ghost function Sent(run: seq<State>, p: nat, b: nat, m: nat): seq<byte>
    requires b <= m < |run|
  {
    if m == b then []
    else Sent(run, p, b, m - 1) + if run[m - 1].holder == p then PutBy(run[m - 1], run[m]) else []
  }

  /** The bytes taken out from state `b` to state `m` of the run while process `p` had the lock. */
  ghost function Received(run: seq<State>, p: nat, b: nat, m: nat): seq<byte>
    requires b <= m < |run|
  {
    if m == b then []
    else Received(run, p, b, m - 1) + if run[m - 1].holder == p then TakenBy(run[m - 1], run[m]) else []
  }

  /** All bytes put in, and all taken out, up to state `m`. */
  ghost function AllPut(run: seq<State>, m: nat): seq<byte>
    requires m < |run|
  {
    if m == 0 then [] else AllPut(run, m - 1) + PutBy(run[m - 1], run[m])
  }

  ghost function AllTaken(run: seq<State>, m: nat): seq<byte>
    requires m < |run|
  {
    if m == 0 then [] else AllTaken(run, m - 1) + TakenBy(run[m - 1], run[m])
  }

  // ---- The lock

  ghost predicate LockOk(s: State) {
    && -1 <= s.holder < |s.procs|
    && forall p :: 0 <= p < |s.procs| ==> (Locked(s.procs[p].pc) <==> s.holder == p)
  }

  /** A step takes the lock, gives it back, or leaves it and everybody's place with respect to it. */
  lemma LockAct(s: State, p: nat)
    requires LockOk(s) && Enabled(s, p)
    ensures LockOk(Act(s, p))
  {
    hide Put, Drop, Front, Full, Empty, LockOk;
    var x, t := s.procs[p], Act(s, p);
    LockAt(s, p);
    assert |t.procs| == |s.procs|;
    forall q | 0 <= q < |s.procs| && q != p ensures Locked(t.procs[q].pc) <==> Locked(s.procs[q].pc) {}
    LockMoves(s, t, p);
  }

  lemma LockAt(s: State, p: nat)
    requires LockOk(s) && p < |s.procs|
    ensures Locked(s.procs[p].pc) <==> s.holder == p
  {
  }

  lemma LockMoves(s: State, t: State, p: nat)
    requires LockOk(s) && p < |s.procs| == |t.procs|
    requires forall q :: 0 <= q < |s.procs| && q != p ==> (Locked(t.procs[q].pc) <==> Locked(s.procs[q].pc))
    requires
      || (t.holder == s.holder && (Locked(t.procs[p].pc) <==> Locked(s.procs[p].pc)))
      || (s.holder == -1 && t.holder == p && Locked(t.procs[p].pc))
      || (s.holder == p && t.holder == -1 && !Locked(t.procs[p].pc))
    ensures LockOk(t)
  {
  }

  lemma LockStep(s: State, t: State, p: nat)
    requires LockOk(s) && Step(s, t, p)
    ensures LockOk(t)
  {
    hide Act;
    if Enabled(s, p) && t == Act(s, p) { LockAct(s, p); }
  }

  /** A step of another process can only wake this one. */
  lemma Bystander(s: State, t: State, q: nat, p: nat)
    requires Step(s, t, q) && q != p && p < |s.procs|
    ensures |t.procs| == |s.procs|
    ensures
      var x := s.procs[p];
      t.procs[p] == x || (x.pc.Asleep? && t.procs[p] == x.(pc := Enter(x.pc.op)))
  {
    hide Put, Drop, Front, Full, Empty;
  }

  // ---- Bytes

  /** What a step does to the ring, the record and the process that makes it. */
  lemma BytesStep(s: State, t: State, p: nat)
    requires Fifo(s.b) && Step(s, t, p)
    ensures t.b.stored == s.b.stored + PutBy(s, t) && t.b.got == s.b.got + TakenBy(s, t)
    ensures PutBy(s, t) != [] ==> p < |s.procs| && s.procs[p].pc == Top(Write)
    ensures TakenBy(s, t) != [] ==> p < |s.procs| && s.procs[p].pc == Copy
  {
    hide Awaken;
    var r := s.b.ring;
    if Enabled(s, p) && t == Act(s, p) {
      var x := s.procs[p];
      if x.pc == Top(Write) && x.i < |x.buf| && !Full(r) {
        assert t.b == Bytes(Put(r, x.buf[x.i]), s.b.stored + [x.buf[x.i]], s.b.got);
        assert (r.nwrite + 1) % WRAP != r.nwrite;
      } else if x.pc == Copy && x.i < |x.buf| && !Empty(r) {
        assert t.b == Bytes(Drop(r), s.b.stored, s.b.got + [Front(r)]);
        assert (r.nread + 1) % WRAP != r.nread;
      } else {
        assert t.b == s.b;
      }
    } else {
      assert t.b == s.b;
    }
  }

  /** The record of the bytes is what an observer of the ring has seen; so in every run the bytes taken out
      are the first of the bytes put in, in their order. */
  lemma {:induction false} RecordIsSeen(run: seq<State>, m: nat)
    requires Run(run) && m < |run|
    ensures LockOk(run[m]) && run[m].b.stored == AllPut(run, m) && run[m].b.got == AllTaken(run, m)
    ensures AllTaken(run, m) <= AllPut(run, m)
  {
    PipeIsFifo(run, m);
    if m > 0 {
      var j := m - 1;
      RecordIsSeen(run, j);
      PipeIsFifo(run, j);
      assert Next(run[j], run[j + 1]);
      var p :| Step(run[j], run[m], p);
      hide Step, LockOk;
      BytesStep(run[j], run[m], p);
      LockStep(run[j], run[m], p);
    }
  }

  // ---- A writer

  /** The buffer as far as the call has come. */
  function Filled(x: Proc): seq<byte> { if x.i <= |x.buf| then x.buf[..x.i] else x.buf }

  /** How far a call of pipewrite is. */
  ghost predicate WriterOk(s: State, p: nat, buf: seq<byte>) {
    && p < |s.procs|
    && var x := s.procs[p];
       && x.buf == buf && x.i <= |buf|
       && (x.pc == End(Write) ==> x.ret == |buf| == x.i)
       && (x.pc == Leave(Write) ==> (x.ret == |buf| == x.i) || (x.ret == -1 && x.i < |buf| && GivesUp(s, p)))
  }

  /** The ring is full and the reading end closed, or the process was killed. */
  predicate GivesUp(s: State, p: nat) {
    p < |s.procs| && s.b.ring.nwrite == (s.b.ring.nread + 512) % 0x1_0000_0000 && (!s.e.readopen || s.procs[p].killed)
  }

  lemma WriterStep(s: State, t: State, q: nat, p: nat, buf: seq<byte>)
    requires LockOk(s) && Fifo(s.b) && Step(s, t, q) && WriterOk(s, p, buf)
    requires Within(s.procs[p].pc, Write) && p < |t.procs| && Within(t.procs[p].pc, Write)
    ensures WriterOk(t, p, buf) && s.procs[p].i <= t.procs[p].i
    ensures (if s.holder == p then PutBy(s, t) else []) == buf[s.procs[p].i..t.procs[p].i]
  {
    hide Drop, Front, Empty, Act;
    if Enabled(s, q) && t == Act(s, q) {
      if q == p { OwnWrite(s, p, buf); } else { OthersWrite(s, q, p, buf); }
    }
  }

  lemma OwnWrite(s: State, p: nat, buf: seq<byte>)
    requires LockOk(s) && Fifo(s.b) && Enabled(s, p) && WriterOk(s, p, buf) && Within(s.procs[p].pc, Write)
    requires Within(Act(s, p).procs[p].pc, Write)
    ensures
      var t := Act(s, p);
      && WriterOk(t, p, buf) && s.procs[p].i <= t.procs[p].i
      && (if s.holder == p then PutBy(s, t) else []) == buf[s.procs[p].i..t.procs[p].i]
  {
    var x, t := s.procs[p], Act(s, p);
    if x.pc == Top(Write) && x.i < |x.buf| && !Full(s.b.ring) {
      assert (s.b.ring.nwrite + 1) % WRAP != s.b.ring.nwrite;
      assert t.b.ring == Put(s.b.ring, buf[x.i]) && buf[x.i..x.i + 1] == [buf[x.i]];
    } else {
      assert t.b == s.b;
    }
  }

  lemma OthersWrite(s: State, q: nat, p: nat, buf: seq<byte>)
    requires LockOk(s) && Fifo(s.b) && Enabled(s, q) && q != p && WriterOk(s, p, buf)
    requires Within(s.procs[p].pc, Write)
    ensures
      var t := Act(s, q);
      && WriterOk(t, p, buf) && s.procs[p].i == t.procs[p].i && (s.holder == p ==> PutBy(s, t) == [])
  {
    hide Act, Fifo, Step;
    var t := Act(s, q);
    assert Step(s, t, q) by { IsStep(s, q); }
    Bystander(s, t, q, p);
    assert s.holder == p ==> !Locked(s.procs[q].pc);
    if s.holder == p { Unlocked(s, q); }
  }

  /** In the states from `b + 1` to `m` process `p` is inside the call that it begins in state `b`. */
  ghost predicate Calls(run: seq<State>, b: nat, m: nat, p: nat, op: Op, buf: seq<byte>) {
    && b < m < |run| && Begin(run[b], run[b + 1], p, op, buf)
    && forall j :: b < j <= m ==> p < |run[j].procs| && Within(run[j].procs[p].pc, op)
  }

  lemma WriterExtends(s: State, t: State, q: nat, p: nat, buf: seq<byte>)
    requires LockOk(s) && Fifo(s.b) && Step(s, t, q) && WriterOk(s, p, buf)
    requires Within(s.procs[p].pc, Write) && p < |t.procs| && Within(t.procs[p].pc, Write)
    ensures WriterOk(t, p, buf)
    ensures Filled(s.procs[p]) + (if s.holder == p then PutBy(s, t) else []) == Filled(t.procs[p])
  {
    hide Step, LockOk, Fifo, Within;
    WriterStep(s, t, q, p, buf);
    var x, y := s.procs[p], t.procs[p];
    assert buf[..x.i] + buf[x.i..y.i] == buf[..y.i];
  }

  lemma WriterBegins(s: State, t: State, p: nat, buf: seq<byte>)
    requires Begin(s, t, p, Write, buf) && LockOk(s)
    ensures WriterOk(t, p, buf) && Filled(t.procs[p]) == [] && s.holder != p
  {
    CallBegins(s, t, p, Write, buf);
  }

  lemma {:induction false} WriterSoFar(run: seq<State>, b: nat, m: nat, p: nat, buf: seq<byte>)
    requires Run(run) && Calls(run, b, m, p, Write, buf)
    ensures WriterOk(run[m], p, buf) && Sent(run, p, b, m) == Filled(run[m].procs[p])
  {
    hide Step, LockOk, Fifo, Within, WriterOk, Filled, PutBy, Begin;
    var j := m - 1;
    RecordIsSeen(run, j);
    PipeIsFifo(run, j);
    if j == b {
      WriterBegins(run[b], run[m], p, buf);
    } else {
      WriterSoFar(run, b, j, p, buf);
      assert Next(run[j], run[j + 1]);
      var q :| Step(run[j], run[m], q);
      WriterExtends(run[j], run[m], q, p, buf);
    }
  }

  /** In every run: what a writer has put into the ring since it was called is its buffer, in order, as far
      as it has come; when it returns its length, all of it; when it returns -1, not all, because the
      ring is full and nobody reads or it was killed. */
  lemma WriterSends(run: seq<State>, b: nat, m: nat, p: nat, buf: seq<byte>)
    requires Run(run) && Calls(run, b, m, p, Write, buf)
    ensures Sent(run, p, b, m) <= buf
    ensures run[m].procs[p].pc == Leave(Write) ==>
      if Sent(run, p, b, m) == buf then run[m].procs[p].ret == |buf|
      else run[m].procs[p].ret == -1 && GivesUp(run[m], p)
  {
    WriterSoFar(run, b, m, p, buf);
    hide Run, Sent, Calls;
  }

  lemma CallBegins(s: State, t: State, p: nat, op: Op, buf: seq<byte>)
    requires Begin(s, t, p, op, buf) && LockOk(s)
    ensures p < |t.procs| && s.holder != p && t.procs[p].pc == Enter(op) && t.procs[p].buf == buf && t.procs[p].i == 0
  {
  }

  // ---- A reader

  /** The last `n` bytes that were taken out. */
  predicate Newest(got: seq<byte>, w: seq<byte>) { |w| <= |got| && got[|got| - |w|..] == w }

  lemma NoneIsNewest(got: seq<byte>, buf: seq<byte>)
    ensures Newest(got, buf[..0])
  {
  }

  /** How far a call of piperead is; `buf` is what the caller's buffer held. */
  ghost predicate ReaderOk(s: State, p: nat, buf: seq<byte>) {
    && p < |s.procs|
    && var x := s.procs[p];
       && |x.buf| == |buf| && x.i <= |buf| && x.buf[x.i..] == buf[x.i..]
       && (if Copying(x) then Newest(s.b.got, x.buf[..x.i]) && (x.i == 0 ==> !NothingYet(s)) else x.i == 0)
       && (x.pc == End(Read) || (x.pc == Leave(Read) && x.ret != -1) ==>
             x.ret == x.i && (x.i == |buf| || s.b.ring.nread == s.b.ring.nwrite))
       && (x.pc == Leave(Read) && x.ret == -1 ==> x.killed && NothingYet(s))
  }

  predicate Copying(x: Proc) { x.pc == Copy || x.pc == End(Read) || (x.pc == Leave(Read) && x.ret != -1) }

  /** The ring is empty and somebody may still write. */
  predicate NothingYet(s: State) { s.b.ring.nread == s.b.ring.nwrite && s.e.writeopen }

  lemma ReaderStep(s: State, t: State, q: nat, p: nat, buf: seq<byte>)
    requires LockOk(s) && Fifo(s.b) && Step(s, t, q) && ReaderOk(s, p, buf)
    requires Within(s.procs[p].pc, Read) && p < |t.procs| && Within(t.procs[p].pc, Read)
    ensures ReaderOk(t, p, buf) && s.procs[p].i <= t.procs[p].i
    ensures t.procs[p].buf[..s.procs[p].i] == s.procs[p].buf[..s.procs[p].i]
    ensures (if s.holder == p then TakenBy(s, t) else []) == t.procs[p].buf[s.procs[p].i..t.procs[p].i]
  {
    hide Put, Full, Act;
    if Enabled(s, q) && t == Act(s, q) {
      if q == p { OwnRead(s, p, buf); } else { OthersRead(s, q, p, buf); }
    }
  }

  lemma OwnRead(s: State, p: nat, buf: seq<byte>)
    requires LockOk(s) && Fifo(s.b) && Enabled(s, p) && ReaderOk(s, p, buf) && Within(s.procs[p].pc, Read)
    requires Within(Act(s, p).procs[p].pc, Read)
    ensures
      var t := Act(s, p);
      && ReaderOk(t, p, buf) && s.procs[p].i <= t.procs[p].i
      && t.procs[p].buf[..s.procs[p].i] == s.procs[p].buf[..s.procs[p].i]
      && (if s.holder == p then TakenBy(s, t) else []) == t.procs[p].buf[s.procs[p].i..t.procs[p].i]
  {
    hide LockOk, Fifo, Enabled, Within, Act, Newest;
    var x := s.procs[p];
    if x.pc == Copy && x.i < |x.buf| && !Empty(s.b.ring) {
      CopiesOne(s, p, buf);
    } else {
      CopiesNone(s, p, buf);
    }
  }

  lemma CopiesNone(s: State, p: nat, buf: seq<byte>)
    requires LockOk(s) && Enabled(s, p) && ReaderOk(s, p, buf) && Within(s.procs[p].pc, Read)
    requires Within(Act(s, p).procs[p].pc, Read)
    requires !(s.procs[p].pc == Copy && s.procs[p].i < |s.procs[p].buf| && !Empty(s.b.ring))
    ensures
      var x, t := s.procs[p], Act(s, p);
      ReaderOk(t, p, buf) && t.procs[p].i == x.i && t.procs[p].buf == x.buf && TakenBy(s, t) == []
  {
    hide Newest, LockOk;
    NoneIsNewest(s.b.got, s.procs[p].buf);
    var x, t := s.procs[p], Act(s, p);
    assert t.b == s.b && t.procs[p].buf == x.buf && t.procs[p].i == x.i;
  }

  lemma CopiesOne(s: State, p: nat, buf: seq<byte>)
    requires LockOk(s) && Fifo(s.b) && Enabled(s, p) && ReaderOk(s, p, buf)
    requires s.procs[p].pc == Copy && s.procs[p].i < |buf| && !Empty(s.b.ring)
    ensures
      var x, t := s.procs[p], Act(s, p);
      && ReaderOk(t, p, buf) && t.procs[p].i == x.i + 1 && t.procs[p].buf[..x.i] == x.buf[..x.i]
      && s.holder == p && TakenBy(s, t) == t.procs[p].buf[x.i..x.i + 1]
  {
    var x, t := s.procs[p], Act(s, p);
    var y, f := t.procs[p], Front(s.b.ring);
    assert (s.b.ring.nread + 1) % WRAP != s.b.ring.nread;
    assert y.buf == x.buf[x.i := f] && t.b.got == s.b.got + [f];
    assert y.buf[..x.i + 1] == x.buf[..x.i] + [f];
    assert t.b.got[|t.b.got| - (x.i + 1)..] == s.b.got[|s.b.got| - x.i..] + [f];
    assert y.buf[x.i + 1..] == x.buf[x.i..][1..] == buf[x.i..][1..] == buf[x.i + 1..];
  }

  lemma OthersRead(s: State, q: nat, p: nat, buf: seq<byte>)
    requires LockOk(s) && Fifo(s.b) && Enabled(s, q) && q != p && ReaderOk(s, p, buf)
    requires Within(s.procs[p].pc, Read)
    ensures
      var t := Act(s, q);
      && ReaderOk(t, p, buf) && s.procs[p].i == t.procs[p].i && t.procs[p].buf == s.procs[p].buf
      && (s.holder == p ==> TakenBy(s, t) == [])
  {
    hide Act, Fifo, Step;
    var t := Act(s, q);
    assert Step(s, t, q) by { IsStep(s, q); }
    Bystander(s, t, q, p);
    assert s.holder == p ==> !Locked(s.procs[q].pc);
    if s.holder == p { Unlocked(s, q); }
    assert Copying(s.procs[p]) || s.procs[p].pc == Leave(Read) ==> s.holder == p;
  }

  lemma IsStep(s: State, q: nat)
    requires Enabled(s, q)
    ensures Step(s, Act(s, q), q)
  {
  }

  /** Without the lock nothing happens to the ring and the ends. */
  lemma Unlocked(s: State, q: nat)
    requires Enabled(s, q) && !Locked(s.procs[q].pc)
    ensures Act(s, q).b == s.b && Act(s, q).e == s.e
  {
  }

  lemma ReaderExtends(s: State, t: State, q: nat, p: nat, buf: seq<byte>)
    requires LockOk(s) && Fifo(s.b) && Step(s, t, q) && ReaderOk(s, p, buf)
    requires Within(s.procs[p].pc, Read) && p < |t.procs| && Within(t.procs[p].pc, Read)
    ensures ReaderOk(t, p, buf)
    ensures Filled(s.procs[p]) + (if s.holder == p then TakenBy(s, t) else []) == Filled(t.procs[p])
  {
    hide Step, LockOk, Fifo, Within;
    ReaderStep(s, t, q, p, buf);
    var x, y := s.procs[p], t.procs[p];
    assert y.buf[..x.i] + y.buf[x.i..y.i] == y.buf[..y.i];
  }

  lemma ReaderBegins(s: State, t: State, p: nat, buf: seq<byte>)
    requires Begin(s, t, p, Read, buf) && LockOk(s)
    ensures ReaderOk(t, p, buf) && Filled(t.procs[p]) == [] && s.holder != p
  {
    CallBegins(s, t, p, Read, buf);
  }

  lemma {:induction false} ReaderSoFar(run: seq<State>, b: nat, m: nat, p: nat, buf: seq<byte>)
    requires Run(run) && Calls(run, b, m, p, Read, buf)
    ensures ReaderOk(run[m], p, buf) && Received(run, p, b, m) == Filled(run[m].procs[p])
  {
    hide Step, LockOk, Fifo, Within, ReaderOk, Filled, TakenBy, Begin;
    var j := m - 1;
    RecordIsSeen(run, j);
    PipeIsFifo(run, j);
    if j == b {
      ReaderBegins(run[b], run[m], p, buf);
    } else {
      ReaderSoFar(run, b, j, p, buf);
      assert Next(run[j], run[j + 1]);
      var q :| Step(run[j], run[m], q);
      ReaderExtends(run[j], run[m], q, p, buf);
    }
  }

  /** In every run: what has been taken out of the ring for a reader since it was called is what it finds in
      its buffer, whose rest is as it was. A call that returns a number has received as many bytes, the
      newest taken out, and less than it asked for only when the ring was empty; none, if it asked for
      some, only when nobody could write any more. One that returns -1 was killed and has received none. */
  lemma ReaderReceives(run: seq<State>, b: nat, m: nat, p: nat, buf: seq<byte>)
    requires Run(run) && Calls(run, b, m, p, Read, buf) && run[m].procs[p].pc == Leave(Read)
    ensures
      var x, got := run[m].procs[p], Received(run, p, b, m);
      if x.ret == -1 then got == [] && x.buf == buf && x.killed
      else
        && x.ret == |got| <= |buf| && x.buf == got + buf[|got|..] && Newest(AllTaken(run, m), got)
        && (|got| < |buf| ==> run[m].b.ring.nread == run[m].b.ring.nwrite)
        && (got == [] && buf != [] ==> !run[m].e.writeopen)
  {
    ReaderSoFar(run, b, m, p, buf);
    RecordIsSeen(run, m);
    hide Run, Received, AllTaken, Calls;
    var y := run[m].procs[p];
    assert y.buf == y.buf[..y.i] + y.buf[y.i..];
  }

  // ---- Closing

  /** Process `p` takes the step of pipeclose that closes the end. */
  predicate Closes(s: State, t: State, p: nat, op: Op) {
    p < |s.procs| == |t.procs| && s.procs[p].pc == Top(op) && t.procs[p].pc == End(op)
  }

  /** An end is closed by the body of its pipeclose and by nothing else, and never opened again. */
  lemma EndsStep(s: State, t: State, p: nat)
    requires Step(s, t, p)
    ensures t.e.writeopen <==> s.e.writeopen && !Closes(s, t, p, CloseWrite)
    ensures t.e.readopen <==> s.e.readopen && !Closes(s, t, p, CloseRead)
  {
    hide Put, Drop, Front, Full, Empty, Awaken;
  }

  predicate IsOpen(e: Ends, op: Op) { if op == CloseWrite then e.writeopen else e.readopen }

  lemma CloserStep(s: State, t: State, q: nat, p: nat, op: Op)
    requires Step(s, t, q) && op in {CloseWrite, CloseRead} && p < |s.procs| == |t.procs|
    requires s.procs[p].pc in {End(op), Leave(op)} ==> !IsOpen(s.e, op)
    requires Within(s.procs[p].pc, op) && Within(t.procs[p].pc, op)
    ensures t.procs[p].pc in {End(op), Leave(op)} ==> !IsOpen(t.e, op)
  {
    hide Step;
    EndsStep(s, t, q);
    if q == p { CloserMoves(s, t, p, op); } else { Bystander(s, t, q, p); }
  }

  lemma CloserMoves(s: State, t: State, p: nat, op: Op)
    requires Step(s, t, p) && op in {CloseWrite, CloseRead} && p < |s.procs| == |t.procs| && Within(s.procs[p].pc, op)
    ensures t.procs[p].pc in {End(op), Leave(op)} ==> s.procs[p].pc in {End(op), Leave(op)} || Closes(s, t, p, op)
  {
    hide Put, Drop, Front, Full, Empty;
  }

  /** In every run: when pipeclose is about to return, its end is closed. */
  lemma {:induction false} CloseCloses(run: seq<State>, b: nat, m: nat, p: nat, op: Op, buf: seq<byte>)
    requires Run(run) && op in {CloseWrite, CloseRead} && Calls(run, b, m, p, op, buf)
    ensures run[m].procs[p].pc in {End(op), Leave(op)} ==> !IsOpen(run[m].e, op)
  {
    hide Step, Within, IsOpen;
    var j := m - 1;
    if j > b {
      CloseCloses(run, b, j, p, op, buf);
      assert Next(run[j], run[j + 1]);
      var q :| Step(run[j], run[m], q);
      SameTable(run[j], run[m], q);
      CloserStep(run[j], run[m], q, p, op);
    }
  }

  lemma SameTable(s: State, t: State, p: nat)
    requires Step(s, t, p)
    ensures |t.procs| == |s.procs|
  {
  }
}
