/** One WebSocket client's bounded send channel and its writer
    (backend/internal/ws/client.go). The hub enqueues broadcasts and may close the channel at
    any moment; writePump is the only receiver. Every operation below is one atomic step. */
module SendQueue {

  /** Broadcasts are identified by number; the payload plays no role. */
  type Broadcast = nat

  /** sendBufSize */
  const CAPACITY: nat := 256

  /** Where writePump stands. */
  datatype Phase =
    | NotStarted
    | Selecting              // waiting in the select
    | Received(b: Broadcast) // took a message, NextWriter not called yet
    | Opened                 // first message written, len(c.send) not read yet
    | Draining(left: nat)    // inside the counted drain loop
    | Stopped                // returned

  /** `queued` is the history of everything ever enqueued; `buffer` what the channel holds.
      `flushed` has gone out in completed frames, `open` is the frame being written.
      `zeroReads` counts receives that would return a closed channel's zero value. */
  datatype Conn = Conn(
    queued: seq<Broadcast>, buffer: seq<Broadcast>, closed: bool, closes: nat,
    phase: Phase, flushed: seq<Broadcast>, open: seq<Broadcast>, closeFrame: bool, zeroReads: nat)

  const FRESH: Conn := Conn([], [], false, 0, NotStarted, [], [], false, 0)

  /** A successful non-blocking send. */
  function Enqueue(k: Conn, b: Broadcast): Conn
  {
    k.(queued := k.queued + [b], buffer := k.buffer + [b])
  }

  function CloseChannel(k: Conn): Conn
  {
    k.(closed := true, closes := k.closes + 1)
  }

  /** The atomic steps of writePump; `ok` says whether the connection accepted the operation. */
  datatype WriterStep =
    | Start
    | Receive
    | ReceiveClosed
    | Ping(ok: bool)
    | OpenFrame(ok: bool)
    | ReadLength
    | Drain
    | FinishFrame(ok: bool)

  /** A receive blocks while the channel is open and empty. */
  predicate CanReceive(k: Conn)
  {
    k.buffer != [] || k.closed
  }

  predicate CanStep(k: Conn, w: WriterStep)
  {
    match w
    case Start => k.phase == NotStarted
    case Receive => k.phase == Selecting && k.buffer != []
    case ReceiveClosed => k.phase == Selecting && k.buffer == [] && k.closed
    case Ping(_) => k.phase == Selecting
    case OpenFrame(_) => k.phase.Received?
    case ReadLength => k.phase == Opened
    case Drain => k.phase.Draining? && k.phase.left > 0 && CanReceive(k)
    case FinishFrame(_) => k.phase == Draining(0)
  }

  function WriterNext(k: Conn, w: WriterStep): Conn
    requires CanStep(k, w)
  {
    match w
    case Start => k.(phase := Selecting)
    case Receive => k.(phase := Received(k.buffer[0]), buffer := k.buffer[1..])
    case ReceiveClosed => k.(phase := Stopped, closeFrame := true)
    case Ping(ok) => if ok then k else k.(phase := Stopped)
    case OpenFrame(ok) => if ok then k.(phase := Opened, open := [k.phase.b]) else k.(phase := Stopped)
    case ReadLength => k.(phase := Draining(|k.buffer|))
    case Drain =>
      if k.buffer != []
      then k.(phase := Draining(k.phase.left - 1), open := k.open + [k.buffer[0]], buffer := k.buffer[1..])
      else k.(phase := Draining(k.phase.left - 1), zeroReads := k.zeroReads + 1)
    case FinishFrame(ok) =>
      if ok then k.(phase := Selecting, flushed := k.flushed + k.open, open := []) else k.(phase := Stopped)
  }

  /** What every step keeps. While the writer runs, nothing enqueued is lost or reordered
      between the channel and the frames; the drain count never exceeds the buffer. */
  ghost predicate Sound(k: Conn)
  {
    && |k.buffer| <= CAPACITY
    && k.zeroReads == 0
    && k.closes == (if k.closed then 1 else 0)
    && match k.phase
       case NotStarted => k.open == [] && k.flushed == [] && k.queued == k.buffer && !k.closeFrame
       case Selecting => k.open == [] && k.queued == k.flushed + k.buffer && !k.closeFrame
       case Received(b) => k.open == [] && k.queued == k.flushed + [b] + k.buffer && !k.closeFrame
       case Opened => k.queued == k.flushed + k.open + k.buffer && !k.closeFrame
       case Draining(n) => k.queued == k.flushed + k.open + k.buffer && n <= |k.buffer| && !k.closeFrame
       case Stopped => k.flushed + k.open <= k.queued && (k.closeFrame ==> k.closed && k.open == [] && k.flushed == k.queued)
  }

  lemma EnqueueSound(k: Conn, b: Broadcast)
    requires Sound(k) && !k.closed && |k.buffer| < CAPACITY
    ensures Sound(Enqueue(k, b))
  {
    var k' := Enqueue(k, b);
    match k.phase
    case Received(m) => assert k'.queued == k.flushed + [m] + k'.buffer;
    case Stopped => assert k.flushed + k.open <= k.queued <= k'.queued;
    case _ => assert k'.queued == k.flushed + k.open + k'.buffer;
  }

  lemma CloseSound(k: Conn)
    requires Sound(k) && !k.closed
    ensures Sound(CloseChannel(k))
  {
  }

  lemma WriterSound(k: Conn, w: WriterStep)
    requires Sound(k) && CanStep(k, w)
    ensures Sound(WriterNext(k, w))
  {
    var k' := WriterNext(k, w);
    match w
    case Receive =>
      assert k.buffer == [k.buffer[0]] + k'.buffer;
      assert k'.queued == k.flushed + [k.buffer[0]] + k'.buffer;
    case Drain =>
      assert k.buffer == [k.buffer[0]] + k'.buffer;
      assert k'.queued == k.flushed + k'.open + k'.buffer;
    case OpenFrame(ok) =>
      if ok { assert k'.open == [k.phase.b]; }
      else { assert k.flushed + [] <= k.queued; }
    case FinishFrame(ok) =>
      assert k.flushed + k.open <= k.queued;
    case Ping(ok) => assert k.flushed + [] <= k.queued;
    case _ =>
  }

  /** The writer neither enqueues nor closes. */
  lemma WriterOnlyTakes(k: Conn, w: WriterStep)
    requires CanStep(k, w)
    ensures WriterNext(k, w).queued == k.queued
    ensures WriterNext(k, w).closed == k.closed && WriterNext(k, w).closes == k.closes
  {
  }

  /** The writer's n further receives after n := len(c.send) can always proceed and always take a
      message that was enqueued, whatever the hub did meanwhile, closing included. */
  lemma DrainNeverBlocks(k: Conn)
    requires Sound(k) && k.phase.Draining? && k.phase.left > 0
    ensures CanStep(k, Drain)
    ensures k.buffer != [] && WriterNext(k, Drain).open == k.open + [k.buffer[0]]
  {
  }

  /** A drain's receive on any channel: it waits while the channel is open and empty, takes the oldest
      message if there is one, and on a closed empty channel would return the zero value, which is counted. */
  lemma DrainMeans(k: Conn)
    requires k.phase.Draining? && k.phase.left > 0
    ensures CanStep(k, Drain) <==> k.buffer != [] || k.closed
    ensures CanStep(k, Drain) ==>
              var k' := WriterNext(k, Drain);
              && k'.phase == Draining(k.phase.left - 1)
              && (k.buffer != [] ==> k.buffer == [k'.open[|k.open|]] + k'.buffer && k'.zeroReads == k.zeroReads)
              && (k.buffer == [] ==> k'.zeroReads == k.zeroReads + 1)
  {
  }

  /** What reached the connection is a prefix of what was enqueued. */
  lemma WrittenIsPrefix(k: Conn)
    requires Sound(k)
    ensures k.flushed + k.open <= k.queued
    ensures k.closeFrame ==> k.flushed == k.queued
  {
    match k.phase
    case Received(b) => assert k.queued == (k.flushed + k.open) + ([b] + k.buffer);
    case Stopped =>
    case _ => assert k.queued == (k.flushed + k.open) + k.buffer;
  }

  // ---- What the writer does in the end -------------------------------------------------

  /** A writer step whose connection operation succeeds. */
  predicate Succeeds(w: WriterStep)
  {
    match w
    case Ping(ok) => ok
    case OpenFrame(ok) => ok
    case FinishFrame(ok) => ok
    case _ => true
  }

  /** Whatever operation fails, the writer has returned and takes no step any more. */
  lemma FailureIsFinal(k: Conn, w: WriterStep, next: WriterStep)
    requires CanStep(k, w) && !Succeeds(w)
    ensures WriterNext(k, w).phase == Stopped && WriterNext(k, w).closeFrame == k.closeFrame
    ensures !CanStep(WriterNext(k, w), next)
  {
  }

  /** The writer waits in vain only while its channel is open and empty; then it may still ping. In
      every other place between its start and its return it can go on, whether or not the connection
      accepts the operation. */
  lemma WriterMoves(k: Conn, ok: bool)
    requires Sound(k)
    ensures match k.phase
            case NotStarted => CanStep(k, Start) && WriterNext(k, Start).phase == Selecting
            case Selecting =>
              && CanStep(k, Ping(ok))
              && (k.buffer != [] ==> CanStep(k, Receive))
              && (k.buffer == [] && k.closed ==> CanStep(k, ReceiveClosed))
            case Received(_) => CanStep(k, OpenFrame(ok))
            case Opened => CanStep(k, ReadLength)
            case Draining(left) => CanStep(k, if left > 0 then Drain else FinishFrame(ok))
            case Stopped => true
  {
  }

  /** The run of the writer's own steps, if each can be taken. */
  ghost predicate Leads(k: Conn, steps: seq<WriterStep>, k': Conn)
    decreases |steps|
  {
    if steps == [] then k' == k
    else Succeeds(steps[0]) && CanStep(k, steps[0]) && Leads(WriterNext(k, steps[0]), steps[1..], k')
  }

  lemma LeadsFirst(k: Conn, w: WriterStep, steps: seq<WriterStep>, k': Conn)
    requires Succeeds(w) && CanStep(k, w) && Leads(WriterNext(k, w), steps, k')
    ensures Leads(k, [w] + steps, k')
  {
    assert ([w] + steps)[1..] == steps;
  }

  /** The step a started writer takes next once its channel is closed. */
  function Onward(k: Conn): WriterStep
    requires k.closed && k.phase != Stopped
  {
    match k.phase
    case NotStarted => Start
    case Selecting => if k.buffer != [] then Receive else ReceiveClosed
    case Received(_) => OpenFrame(true)
    case Opened => ReadLength
    case Draining(left) => if left > 0 then Drain else FinishFrame(true)
  }

  /** How far the writer is from returning. */
  function Remaining(k: Conn): nat
  {
    5 * |k.buffer| +
    match k.phase
    case NotStarted => 6
    case Selecting => 1
    case Received(_) => 5
    case Opened => 4
    case Draining(left) => 3
    case Stopped => 0
  }

  lemma OnwardGoesOn(k: Conn)
    requires Sound(k) && k.closed && k.phase != Stopped
    ensures Succeeds(Onward(k)) && CanStep(k, Onward(k)) && Remaining(WriterNext(k, Onward(k))) < Remaining(k)
  {
  }

  /** A channel that has been closed is written out: from wherever the writer stands, a connection that
      keeps accepting takes everything ever enqueued, in order, and then the Close frame. */
  lemma {:induction false} ClosedIsWrittenOut(k: Conn) returns (steps: seq<WriterStep>, done: Conn)
    requires Sound(k) && k.closed && k.phase != Stopped
    ensures Leads(k, steps, done) && done.phase == Stopped && done.closeFrame
    ensures done.flushed == k.queued && done.queued == k.queued && done.buffer == []
    decreases Remaining(k)
  {
    OnwardGoesOn(k);
    var w := Onward(k);
    var k' := WriterNext(k, w);
    WriterSound(k, w);
    WriterOnlyTakes(k, w);
    if w == ReceiveClosed {
      steps, done := [w], k';
      assert Leads(k', [], k') && steps[1..] == [];
    } else {
      assert k'.phase != Stopped;
      hide Sound;
      hide WriterNext;
      hide CanStep;
      hide Leads;
      var rest;
      rest, done := ClosedIsWrittenOut(k');
      LeadsFirst(k, w, rest, done);
      steps := [w] + rest;
    }
  }

  // ---- The drain loop itself ---------------------------------------------------------

  /** The channel as writePump sees it between its own operations. */
  class Channel {
    var buffer: seq<Broadcast>
    var closed: bool
    ghost var queued: seq<Broadcast>

    /** What the hub does between two operations of the writer: send some broadcasts and possibly
        close, nothing once the channel is closed. */
    method Interfere(arrivals: seq<Broadcast>, close: bool)
      modifies this
      ensures var more := if old(closed) then [] else arrivals;
              buffer == old(buffer) + more && queued == old(queued) + more
      ensures closed == (old(closed) || close)
    {
      if !closed {
        buffer, queued := buffer + arrivals, queued + arrivals;
        closed := close;
      }
    }

    /** A receive that does not block; `ok` is false for the zero value of a closed channel. */
    method Receive() returns (b: Broadcast, ok: bool)
      requires buffer != [] || closed
      modifies this`buffer
      ensures ok == (old(buffer) != [])
      ensures ok ==> b == old(buffer)[0] && buffer == old(buffer)[1..]
      ensures !ok ==> buffer == old(buffer)
    {
      if buffer == [] {
        return 0, false;
      }
      b, ok := buffer[0], true;
      buffer := buffer[1..];
    }

    /** n := len(c.send), then n receives with the hub interfering before each one as an arbitrary
        schedule says: every receive is of a real message, and together they take exactly what was
        buffered when n was read. */
    method DrainBatch(schedule: nat -> (seq<Broadcast>, bool)) returns (taken: seq<Broadcast>)
      modifies this
      ensures taken == old(buffer)
      ensures old(queued) <= queued
      ensures queued[|old(queued)|..] == buffer
    {
      var n := |buffer|;
      taken := [];
      for i := 0 to n
        invariant |taken| == i
        invariant old(queued) <= queued
        invariant taken + buffer == old(buffer) + queued[|old(queued)|..]
      {
        ghost var added := queued[|old(queued)|..];
        ghost var held := buffer;
        ghost var more := if closed then [] else schedule(i).0;
        Interfere(schedule(i).0, schedule(i).1);
        assert queued[|old(queued)|..] == added + more;
        assert taken + (held + more) == (taken + held) + more;
        assert (old(buffer) + added) + more == old(buffer) + (added + more);
        assert buffer != [] by { assert |taken + buffer| >= n; }
        ghost var before := buffer;
        var b, ok := Receive();
        assert before == [b] + buffer;
        taken := taken + [b];
      }
      assert (taken + buffer)[..n] == taken;
      assert (taken + buffer)[n..] == buffer;
    }
  }
}
