/** The WebSocket hub (backend/internal/ws/hub.go) as a step relation. Register and Unregister
    run under the write lock, statement by statement; any number of Broadcasts share the read
    lock and interleave send by send; `go h.Unregister` and the read pumps leave any number of
    pending Unregister calls for one client. Sending on, or closing, a closed channel panics. */
module Hub {
  import opened SendQueue

  type Client = nat

  /** Progress of Unregister inside its critical section. */
  datatype Stage = Entered | Deleted | Finished

  /** Who holds the write lock. */
  datatype Holder = Free | Registering(c: Client) | Registered(c: Client) | Unregistering(c: Client, stage: Stage)

  datatype State = State(
    conns: map<Client, Conn>,                       // every client ever created
    clients: set<Client>,                           // the hub's map
    holder: Holder,
    waitingRegister: set<Client>,                   // Register called, lock not yet taken
    ready: set<Client>,                             // Register returned, pumps may start
    launched: set<Client>,                          // readPump started at some time
    reading: set<Client>,                           // readPump running
    waitingUnregister: multiset<Client>,            // Unregister called, lock not yet taken
    broadcasts: map<Broadcast, set<Client>>,        // read-lock holders and the clients still to visit
    endedBefore: map<Broadcast, set<Broadcast>>,    // for each broadcast ever begun: those already over
    ended: set<Broadcast>,
    panicked: bool)

  const INIT: State := State(map[], {}, Free, {}, {}, {}, {}, multiset{}, map[], map[], {}, false)

  datatype Step =
    | Connect(c: Client)
    | LockRegister(c: Client)
    | RegisterInsert
    | RegisterUnlock
    | LockUnregister(c: Client)
    | UnregisterDelete
    | UnregisterClose
    | UnregisterUnlock
    | BroadcastLock(b: Broadcast)
    | BroadcastSend(b: Broadcast, c: Client)
    | BroadcastUnlock(b: Broadcast)
    | StartReader(c: Client)
    | ReaderFails(c: Client)
    | Writer(c: Client, w: WriterStep)

  predicate Unlocked(s: State) { s.holder == Free && s.broadcasts == map[] }

  predicate Enabled(s: State, step: Step)
  {
    match step
    case Connect(c) => c !in s.conns
    case LockRegister(c) => c in s.waitingRegister && Unlocked(s)
    case RegisterInsert => s.holder.Registering?
    case RegisterUnlock => s.holder.Registered?
    case LockUnregister(c) => c in s.waitingUnregister && Unlocked(s)
    case UnregisterDelete => s.holder.Unregistering? && s.holder.stage == Entered
    case UnregisterClose => s.holder.Unregistering? && s.holder.stage == Deleted && s.holder.c in s.conns
    case UnregisterUnlock => s.holder.Unregistering? && s.holder.stage == Finished
    case BroadcastLock(b) => s.holder == Free && b !in s.endedBefore
    case BroadcastSend(b, c) => b in s.broadcasts && c in s.broadcasts[b] && c in s.conns
    case BroadcastUnlock(b) => b in s.broadcasts && s.broadcasts[b] == {}
    case StartReader(c) => c in s.ready && c !in s.launched
    case ReaderFails(c) => c in s.reading
    case Writer(c, w) => c in s.conns && CanStep(s.conns[c], w) && (w.Start? ==> c in s.ready)
  }

  function Next(s: State, step: Step): State
    requires Enabled(s, step)
  {
    match step
    case Connect(c) => s.(conns := s.conns[c := FRESH], waitingRegister := s.waitingRegister + {c})
    case LockRegister(c) => s.(holder := Registering(c), waitingRegister := s.waitingRegister - {c})
    case RegisterInsert => s.(clients := s.clients + {s.holder.c}, holder := Registered(s.holder.c))
    case RegisterUnlock => s.(holder := Free, ready := s.ready + {s.holder.c})
    case LockUnregister(c) =>
      s.(holder := Unregistering(c, Entered), waitingUnregister := s.waitingUnregister - multiset{c})
    case UnregisterDelete =>
      var c := s.holder.c;
      if c in s.clients
      then s.(clients := s.clients - {c}, holder := Unregistering(c, Deleted))
      else s.(holder := Unregistering(c, Finished))
    case UnregisterClose =>
      var c := s.holder.c;
      s.(conns := s.conns[c := CloseChannel(s.conns[c])], holder := Unregistering(c, Finished),
         panicked := s.panicked || s.conns[c].closed)
    case UnregisterUnlock => s.(holder := Free)
    case BroadcastLock(b) =>
      s.(broadcasts := s.broadcasts[b := s.clients], endedBefore := s.endedBefore[b := s.ended])
    case BroadcastSend(b, c) =>
      var visited := s.(broadcasts := s.broadcasts[b := s.broadcasts[b] - {c}]);
      var k := s.conns[c];
      if k.closed then visited.(panicked := true)
      else if |k.buffer| < CAPACITY then visited.(conns := s.conns[c := Enqueue(k, b)])
      else visited.(waitingUnregister := s.waitingUnregister + multiset{c})
    case BroadcastUnlock(b) => s.(broadcasts := s.broadcasts - {b}, ended := s.ended + {b})
    case StartReader(c) => s.(reading := s.reading + {c}, launched := s.launched + {c})
    case ReaderFails(c) => s.(reading := s.reading - {c}, waitingUnregister := s.waitingUnregister + multiset{c})
    case Writer(c, w) => s.(conns := s.conns[c := WriterNext(s.conns[c], w)])
  }

  /** The states of a run from a new hub. */
  ghost predicate Run(states: seq<State>, steps: seq<Step>)
  {
    && |states| == |steps| + 1
    && states[0] == INIT
    && forall i {:trigger steps[i]} :: 0 <= i < |steps| ==>
         Enabled(states[i], steps[i]) && states[i + 1] == Next(states[i], steps[i])
  }

  lemma RunStep(states: seq<State>, steps: seq<Step>, n: nat)
    requires Run(states, steps) && 0 < n < |states|
    ensures |states| == |steps| + 1
    ensures Enabled(states[n - 1], steps[n - 1]) && states[n] == Next(states[n - 1], steps[n - 1])
  {
    hide Next;
    hide Enabled;
    var m := n - 1;
    assert Enabled(states[m], steps[m]) && states[m + 1] == Next(states[m], steps[m]);
  }

  // ---- Invariants ------------------------------------------------------------------

  /** Everybody mentioned exists. */
  ghost predicate Known(s: State)
  {
    && s.clients <= s.conns.Keys
    && s.waitingRegister <= s.conns.Keys
    && s.ready <= s.conns.Keys
    && s.reading <= s.conns.Keys
    && (forall c :: c in s.waitingUnregister ==> c in s.conns)
    && (s.holder != Free ==> s.holder.c in s.conns)
  }

  /** Client `c` has not passed through Register yet. */
  predicate Unregistered(s: State, c: Client)
  {
    c in s.waitingRegister || s.holder == Registering(c)
  }

  /** The lock protects the map, and what is in the map, or on its way in, is open. */
  ghost predicate Locked(s: State)
  {
    && (s.holder != Free ==> s.broadcasts == map[])
    && (forall c :: Unregistered(s, c) ==> c !in s.clients && c in s.conns && !s.conns[c].closed)
    && (s.holder.Registering? ==> s.holder.c !in s.waitingRegister)
    && (forall c :: c in s.clients ==> c in s.conns && !s.conns[c].closed)
    && (s.holder.Unregistering? && s.holder.stage == Deleted ==>
          && s.holder.c !in s.clients && s.holder.c !in s.waitingRegister
          && s.holder.c in s.conns && !s.conns[s.holder.c].closed)
    && !s.panicked
  }

  ghost predicate AllSound(s: State)
  {
    forall c :: c in s.conns ==> Sound(s.conns[c])
  }

  /** Bookkeeping of broadcasts: each visits clients of the map, begins once, ends once. */
  ghost predicate Tracked(s: State)
  {
    && (forall b :: b in s.broadcasts ==> s.broadcasts[b] <= s.clients && b in s.endedBefore && b !in s.ended)
    && (forall b :: b in s.endedBefore ==> s.endedBefore[b] <= s.ended)
    && (forall b :: b in s.ended ==> b in s.endedBefore)
  }

  /** One client's history: no broadcast twice, none after one that began when it was already over. */
  ghost predicate InOrder(q: seq<Broadcast>, endedBefore: map<Broadcast, set<Broadcast>>)
  {
    && (forall i :: 0 <= i < |q| ==> q[i] in endedBefore)
    && (forall i, j :: 0 <= i < j < |q| ==> q[i] != q[j] && q[j] !in endedBefore[q[i]])
  }

  ghost predicate Histories(s: State)
  {
    && (forall c :: c in s.conns ==> InOrder(s.conns[c].queued, s.endedBefore))
    && (forall b, c :: b in s.broadcasts && c in s.broadcasts[b] && c in s.conns ==> b !in s.conns[c].queued)
  }

  /** Where a running broadcast stands with a client of the map. */
  predicate Served(s: State, b: Broadcast, c: Client)
    requires c in s.conns
  {
    b in s.conns[c].queued || c in s.waitingUnregister
  }

  ghost predicate Delivering(s: State)
  {
    forall b, c :: b in s.broadcasts && c in s.clients && c in s.conns ==> c in s.broadcasts[b] || Served(s, b, c)
  }

  ghost predicate Inv(s: State)
  {
    Known(s) && Locked(s) && AllSound(s) && Tracked(s) && Histories(s) && Delivering(s)
  }

  /** The steps by the method they belong to. */
  predicate OfRegister(step: Step)
  {
    step.Connect? || step.LockRegister? || step.RegisterInsert? || step.RegisterUnlock?
  }

  predicate OfUnregister(step: Step)
  {
    step.LockUnregister? || step.UnregisterDelete? || step.UnregisterClose? || step.UnregisterUnlock?
  }

  predicate OfBroadcast(step: Step)
  {
    step.BroadcastLock? || step.BroadcastSend? || step.BroadcastUnlock?
  }

  predicate OfPumps(step: Step)
  {
    step.StartReader? || step.ReaderFails? || step.Writer?
  }

  lemma KnownRegister(s: State, step: Step)
    requires Enabled(s, step) && Known(s) && OfRegister(step)
    ensures Known(Next(s, step))
  {
  }

  lemma KnownUnregister(s: State, step: Step)
    requires Enabled(s, step) && Known(s) && OfUnregister(step)
    ensures Known(Next(s, step))
  {
  }

  lemma KnownBroadcast(s: State, step: Step)
    requires Enabled(s, step) && Known(s) && OfBroadcast(step)
    ensures Known(Next(s, step))
  {
  }

  lemma KnownPumps(s: State, step: Step)
    requires Enabled(s, step) && Known(s) && OfPumps(step)
    ensures Known(Next(s, step))
  {
    hide WriterNext;
    hide CanStep;
  }

  lemma KnownStep(s: State, step: Step)
    requires Enabled(s, step) && Known(s)
    ensures Known(Next(s, step))
  {
    hide Known;
    hide Next;
    hide Enabled;
    if OfRegister(step) {
      KnownRegister(s, step);
    } else if OfUnregister(step) {
      KnownUnregister(s, step);
    } else if OfBroadcast(step) {
      KnownBroadcast(s, step);
    } else {
      KnownPumps(s, step);
    }
  }

  lemma LockedRegister(s: State, step: Step)
    requires Enabled(s, step) && Known(s) && Locked(s)
    requires OfRegister(step)
    ensures Locked(Next(s, step))
  {
  }

  lemma LockedUnregister(s: State, step: Step)
    requires Enabled(s, step) && Known(s) && Locked(s)
    requires OfUnregister(step)
    ensures Locked(Next(s, step))
  {
  }

  lemma LockedBroadcast(s: State, step: Step)
    requires Enabled(s, step) && Known(s) && Locked(s) && Tracked(s)
    requires OfBroadcast(step)
    ensures Locked(Next(s, step))
  {
    if step.BroadcastSend? {
      assert s.holder == Free;
      assert step.c in s.clients;
    }
  }

  lemma LockedPumps(s: State, step: Step)
    requires Enabled(s, step) && Known(s) && Locked(s)
    requires OfPumps(step)
    ensures Locked(Next(s, step))
  {
    hide WriterNext;
    hide CanStep;
    if step.Writer? {
      WriterOnlyTakes(s.conns[step.c], step.w);
      assert Locked(Next(s, step));
    }
  }

  /** The heart of the protocol: every step keeps the map's channels open and causes no panic. */
  lemma LockedStep(s: State, step: Step)
    requires Enabled(s, step) && Known(s) && Locked(s) && Tracked(s)
    ensures Locked(Next(s, step))
  {
    hide Locked;
    hide Known;
    if OfRegister(step) {
      LockedRegister(s, step);
    } else if OfUnregister(step) {
      LockedUnregister(s, step);
    } else if OfBroadcast(step) {
      LockedBroadcast(s, step);
    } else {
      LockedPumps(s, step);
    }
  }

  lemma SoundStep(s: State, step: Step)
    requires Enabled(s, step) && AllSound(s) && Locked(s)
    ensures AllSound(Next(s, step))
  {
    match step
    case UnregisterClose => CloseSound(s.conns[s.holder.c]);
    case BroadcastSend(b, c) => if !s.conns[c].closed && |s.conns[c].buffer| < CAPACITY { EnqueueSound(s.conns[c], b); }
    case Writer(c, w) => WriterSound(s.conns[c], w);
    case _ =>
  }

  lemma TrackedStep(s: State, step: Step)
    requires Enabled(s, step) && Tracked(s) && Locked(s)
    ensures Tracked(Next(s, step))
  {
    if OfRegister(step) {
      assert Tracked(Next(s, step));
    } else if OfUnregister(step) {
      assert Tracked(Next(s, step));
    } else if OfBroadcast(step) {
      assert Tracked(Next(s, step));
    }
  }

  /** A broadcast still running may be appended to a history that does not hold it. */
  lemma AppendInOrder(s: State, q: seq<Broadcast>, b: Broadcast)
    requires Tracked(s) && b in s.broadcasts && b !in q && InOrder(q, s.endedBefore)
    ensures InOrder(q + [b], s.endedBefore)
  {
  }

  lemma BeginInOrder(s: State, q: seq<Broadcast>, b: Broadcast)
    requires b !in s.endedBefore && InOrder(q, s.endedBefore)
    ensures InOrder(q, s.endedBefore[b := s.ended]) && b !in q
  {
  }

  lemma HistoriesLock(s: State, b: Broadcast)
    requires Enabled(s, BroadcastLock(b)) && Histories(s)
    ensures Histories(Next(s, BroadcastLock(b)))
  {
    forall c | c in s.conns
      ensures InOrder(s.conns[c].queued, s.endedBefore[b := s.ended]) && b !in s.conns[c].queued
    {
      BeginInOrder(s, s.conns[c].queued, b);
    }
    hide InOrder;
  }

  /** A send changes one history, by appending the broadcast, and crosses the client off. */
  lemma SendFrame(s: State, b: Broadcast, c: Client)
    requires Enabled(s, BroadcastSend(b, c))
    ensures var s' := Next(s, BroadcastSend(b, c));
            && s'.endedBefore == s.endedBefore && s'.conns.Keys == s.conns.Keys
            && s'.broadcasts == s.broadcasts[b := s.broadcasts[b] - {c}]
            && (forall d :: d in s.conns && d != c ==> s'.conns[d] == s.conns[d])
            && (s'.conns[c].queued == s.conns[c].queued || s'.conns[c].queued == s.conns[c].queued + [b])
  {
  }

  lemma HistoriesSend(s: State, b: Broadcast, c: Client)
    requires Enabled(s, BroadcastSend(b, c)) && Tracked(s) && Histories(s)
    ensures Histories(Next(s, BroadcastSend(b, c)))
  {
    AppendInOrder(s, s.conns[c].queued, b);
    SendFrame(s, b, c);
    hide InOrder;
    hide Tracked;
    hide Next;
  }

  /** Steps other than locking and sending leave every history and every visit list alone. */
  lemma HistoriesFrame(s: State, s': State)
    requires Histories(s) && s'.endedBefore == s.endedBefore
    requires forall b :: b in s'.broadcasts ==> b in s.broadcasts && s'.broadcasts[b] == s.broadcasts[b]
    requires forall c :: c in s'.conns ==> s'.conns[c].queued == if c in s.conns then s.conns[c].queued else []
    ensures Histories(s')
  {
    assert InOrder([], s.endedBefore);
    hide InOrder;
  }

  ghost predicate SameQueues(s: State, s': State)
  {
    && s'.endedBefore == s.endedBefore
    && (forall b :: b in s'.broadcasts ==> b in s.broadcasts && s'.broadcasts[b] == s.broadcasts[b])
    && (forall c :: c in s'.conns ==> s'.conns[c].queued == if c in s.conns then s.conns[c].queued else [])
  }

  lemma QueuedFrame(s: State, step: Step)
    requires Enabled(s, step) && !step.BroadcastSend? && !step.BroadcastLock?
    ensures SameQueues(s, Next(s, step))
  {
    if OfRegister(step) {
      assert SameQueues(s, Next(s, step));
    } else if OfUnregister(step) {
      assert SameQueues(s, Next(s, step));
    } else if step.Writer? {
      WriterOnlyTakes(s.conns[step.c], step.w);
      assert SameQueues(s, Next(s, step));
    }
  }

  lemma HistoriesStep(s: State, step: Step)
    requires Enabled(s, step) && Tracked(s) && Histories(s)
    ensures Histories(Next(s, step))
  {
    hide Histories;
    hide Tracked;
    if step.BroadcastLock? {
      HistoriesLock(s, step.b);
    } else if step.BroadcastSend? {
      HistoriesSend(s, step.b, step.c);
    } else {
      QueuedFrame(s, step);
      var s' := Next(s, step);
      hide Next;
      hide Enabled;
      HistoriesFrame(s, s');
    }
  }

  /** With a broadcast running the map cannot change, and marks of service only accumulate. */
  lemma DeliveringFrame(s: State, s': State)
    requires Delivering(s) && s'.conns.Keys >= s.conns.Keys
    requires s'.broadcasts != map[] ==> s'.clients == s.clients
    requires s.clients <= s.conns.Keys
    requires forall b :: b in s'.broadcasts ==> b in s.broadcasts && s'.broadcasts[b] == s.broadcasts[b]
    requires forall c :: c in s.conns ==> s'.conns[c].queued == s.conns[c].queued
    requires s'.broadcasts != map[] ==> s.waitingUnregister <= s'.waitingUnregister
    ensures Delivering(s')
  {
  }

  lemma DeliveringSend(s: State, b: Broadcast, c: Client)
    requires Enabled(s, BroadcastSend(b, c)) && Known(s) && Locked(s) && Tracked(s) && Delivering(s)
    ensures Delivering(Next(s, BroadcastSend(b, c)))
  {
    assert c in s.clients;
  }

  /** Outside Broadcast no step enqueues, and none touches the map or withdraws an Unregister while
      a broadcast holds the read lock. */
  lemma OthersFrame(s: State, step: Step)
    requires Enabled(s, step) && !step.BroadcastSend? && !step.BroadcastLock?
    requires s.holder != Free ==> s.broadcasts == map[]
    ensures KeepsServing(s, Next(s, step))
  {
    if OfRegister(step) {
      assert KeepsServing(s, Next(s, step));
    } else if OfUnregister(step) {
      assert KeepsServing(s, Next(s, step));
    } else if step.Writer? {
      WriterOnlyTakes(s.conns[step.c], step.w);
      assert KeepsServing(s, Next(s, step));
    }
  }

  ghost predicate KeepsServing(s: State, s': State)
  {
    && s'.conns.Keys >= s.conns.Keys
    && (forall b :: b in s'.broadcasts ==> b in s.broadcasts && s'.broadcasts[b] == s.broadcasts[b])
    && (forall c :: c in s.conns ==> s'.conns[c].queued == s.conns[c].queued)
    && (s'.broadcasts != map[] ==> s'.clients == s.clients && s.waitingUnregister <= s'.waitingUnregister)
  }

  lemma DeliveringStep(s: State, step: Step)
    requires Enabled(s, step) && Known(s) && Locked(s) && Tracked(s) && Delivering(s)
    ensures Delivering(Next(s, step))
  {
    assert s.holder != Free ==> s.broadcasts == map[];
    assert s.clients <= s.conns.Keys;
    hide Locked;
    hide Known;
    hide Tracked;
    if step.BroadcastSend? {
      DeliveringSend(s, step.b, step.c);
    } else if step.BroadcastLock? {
      DeliveringLock(s, step.b);
    } else {
      hide Delivering;
      OthersFrame(s, step);
      var s' := Next(s, step);
      hide Next;
      hide Enabled;
      DeliveringFrame(s, s');
    }
  }

  lemma DeliveringLock(s: State, b: Broadcast)
    requires Enabled(s, BroadcastLock(b)) && Delivering(s)
    ensures Delivering(Next(s, BroadcastLock(b)))
  {
  }

  lemma InvStep(s: State, step: Step)
    requires Enabled(s, step) && Inv(s)
    ensures Inv(Next(s, step))
  {
    KnownStep(s, step);
    LockedStep(s, step);
    SoundStep(s, step);
    TrackedStep(s, step);
    HistoriesStep(s, step);
    DeliveringStep(s, step);
  }

  lemma {:induction false} RunInv(states: seq<State>, steps: seq<Step>, i: nat)
    requires Run(states, steps) && i < |states|
    ensures Inv(states[i])
  {
    if i > 0 {
      RunInv(states, steps, i - 1);
      InvStep(states[i - 1], steps[i - 1]);
    }
  }

  // ---- Safety of every run ----------------------------------------------------------

  /** In every interleaving, at every moment: nothing has sent on or closed a closed channel, a
      client in the map has an open channel, every channel has been closed at most once, no
      buffer exceeds its capacity and no receive returned a closed channel's zero value. */
  lemma HubSafe(states: seq<State>, steps: seq<Step>, i: nat, c: Client)
    requires Run(states, steps) && i < |states| && c in states[i].conns
    ensures !states[i].panicked
    ensures c in states[i].clients ==> !states[i].conns[c].closed
    ensures states[i].conns[c].closes <= 1
    ensures |states[i].conns[c].buffer| <= 256
    ensures states[i].conns[c].zeroReads == 0
  {
    RunInv(states, steps, i);
  }

  /** In any state a send on a closed channel, or a second close, would be a panic, and panics stay. */
  lemma ClosedChannelPanics(s: State, step: Step)
    requires Enabled(s, step)
    ensures step.BroadcastSend? && s.conns[step.c].closed ==> Next(s, step).panicked
    ensures step.UnregisterClose? && s.conns[s.holder.c].closed ==> Next(s, step).panicked
    ensures s.panicked ==> Next(s, step).panicked
  {
    hide WriterNext;
    hide CanStep;
  }

  /** No send and no close is ever attempted on a closed channel. */
  lemma OnlyOpenChannels(states: seq<State>, steps: seq<Step>, i: nat)
    requires Run(states, steps) && i < |steps|
    ensures |states| == |steps| + 1
    ensures steps[i].BroadcastSend? ==> steps[i].c in states[i].conns && !states[i].conns[steps[i].c].closed
    ensures steps[i].UnregisterClose? ==>
              && states[i].holder.Unregistering? && states[i].holder.c in states[i].conns
              && !states[i].conns[states[i].holder.c].closed && states[i + 1].conns[states[i].holder.c].closed
  {
    RunStep(states, steps, i + 1);
    RunInv(states, steps, i);
    hide Run;
    hide Histories;
    hide Delivering;
    hide AllSound;
  }

  /** A broadcast can always visit any client it has left, and an Unregister that found its client
      can always close: the existence guards of those steps never bite. */
  lemma NeverStuck(states: seq<State>, steps: seq<Step>, i: nat)
    requires Run(states, steps) && i < |states|
    ensures var s := states[i];
            && (forall b, c :: b in s.broadcasts && c in s.broadcasts[b] ==> Enabled(s, BroadcastSend(b, c)))
            && (s.holder.Unregistering? && s.holder.stage == Deleted ==> Enabled(s, UnregisterClose))
  {
    RunInv(states, steps, i);
  }

  /** The writer, at every moment of every run: a drain in progress can take its next message and
      it is a real one; what reached the connection is a prefix of what was enqueued; and once the
      Close frame is sent, everything enqueued has been sent before it. */
  lemma WriterSafe(states: seq<State>, steps: seq<Step>, i: nat, c: Client)
    requires Run(states, steps) && i < |states| && c in states[i].conns
    ensures var k := states[i].conns[c];
            && (k.phase.Draining? && k.phase.left > 0 ==> CanStep(k, Drain) && k.buffer != [])
            && k.flushed + k.open <= k.queued
            && (k.closeFrame ==> k.flushed == k.queued)
  {
    RunInv(states, steps, i);
    WrittenIsPrefix(states[i].conns[c]);
  }

  /** The lock never deadlocks. While any Register, Unregister or Broadcast is waiting or under way, one
      of their steps can be taken; and a free lock admits a new Broadcast beside those running. */
  lemma NoDeadlock(states: seq<State>, steps: seq<Step>, i: nat, b: Broadcast)
    requires Run(states, steps) && i < |states| && b !in states[i].endedBefore
    ensures var s := states[i];
            s.holder == Free ==> Enabled(s, BroadcastLock(b)) && Next(s, BroadcastLock(b)).broadcasts.Keys == s.broadcasts.Keys + {b}
    ensures var s := states[i];
            s.holder != Free || s.broadcasts != map[] || s.waitingRegister != {} || s.waitingUnregister != multiset{}
            ==> exists step :: Enabled(s, step) && !OfPumps(step) && !step.BroadcastLock? && !step.Connect?
  {
    var s := states[i];
    NeverStuck(states, steps, i);
    hide Run;
    if s.holder.Registering? {
      assert Enabled(s, RegisterInsert);
    } else if s.holder.Registered? {
      assert Enabled(s, RegisterUnlock);
    } else if s.holder.Unregistering? {
      assert Enabled(s, if s.holder.stage == Entered then UnregisterDelete else if s.holder.stage == Deleted then UnregisterClose else UnregisterUnlock);
    } else if s.broadcasts != map[] {
      var r :| r in s.broadcasts;
      if s.broadcasts[r] == {} {
        assert Enabled(s, BroadcastUnlock(r));
      } else {
        var c :| c in s.broadcasts[r];
        assert Enabled(s, BroadcastSend(r, c));
      }
    } else if c :| c in s.waitingRegister {
      assert Enabled(s, LockRegister(c));
    } else if c :| c in s.waitingUnregister {
      assert Enabled(s, LockUnregister(c));
    }
  }

  // ---- A client's life -----------------------------------------------------------------

  /** The client is out of the map, or an Unregister of it is pending or has just taken the lock. */
  predicate Leaving(s: State, c: Client)
  {
    c !in s.clients || c in s.waitingUnregister || s.holder == Unregistering(c, Entered)
  }

  /** Where a client can be: on its way in, in the map, about to be closed, or closed. Its pumps may
      start once Register has returned, and a reader that is no longer running has asked to leave. */
  ghost predicate Watched(s: State, c: Client)
  {
    && (c in s.ready || c in s.launched || c in s.reading ==> c in s.conns)
    && (c in s.conns ==> Unregistered(s, c) || c in s.clients || s.holder == Unregistering(c, Deleted) || s.conns[c].closed)
    && (c in s.conns ==> (c in s.ready <==> !Unregistered(s, c) && s.holder != Registered(c)))
    && (s.holder == Registered(c) ==> c in s.clients)
    && (c in s.conns && s.conns[c].phase != NotStarted ==> c in s.ready)
    && (c in s.reading ==> c in s.launched)
    && (c in s.launched ==> c in s.ready && (c in s.reading || Leaving(s, c)))
  }

  lemma WatchedRegister(s: State, step: Step, c: Client)
    requires Enabled(s, step) && OfRegister(step) && Known(s) && Locked(s) && Watched(s, c)
    ensures Watched(Next(s, step), c)
  {
  }

  lemma WatchedUnregister(s: State, step: Step, c: Client)
    requires Enabled(s, step) && OfUnregister(step) && Known(s) && Locked(s) && Watched(s, c)
    ensures Watched(Next(s, step), c)
  {
  }

  lemma WatchedBroadcast(s: State, step: Step, c: Client)
    requires Enabled(s, step) && OfBroadcast(step) && Watched(s, c)
    ensures Watched(Next(s, step), c)
  {
  }

  lemma WatchedPumps(s: State, step: Step, c: Client)
    requires Enabled(s, step) && OfPumps(step) && Watched(s, c)
    ensures Watched(Next(s, step), c)
  {
    if step.Writer? { WriterOnlyTakes(s.conns[step.c], step.w); }
    hide WriterNext;
    hide CanStep;
  }

  lemma WatchedStep(s: State, step: Step, c: Client)
    requires Enabled(s, step) && Known(s) && Locked(s) && Watched(s, c)
    ensures Watched(Next(s, step), c)
  {
    hide Watched;
    hide Next;
    hide Enabled;
    if OfRegister(step) {
      WatchedRegister(s, step, c);
    } else if OfUnregister(step) {
      WatchedUnregister(s, step, c);
    } else if OfBroadcast(step) {
      WatchedBroadcast(s, step, c);
    } else {
      WatchedPumps(s, step, c);
    }
  }

  lemma InvParts(s: State)
    requires Inv(s)
    ensures Known(s) && Locked(s)
  {
  }

  lemma WatchedAtFirst(c: Client)
    ensures Watched(INIT, c)
  {
  }

  lemma {:induction false} RunWatched(states: seq<State>, steps: seq<Step>, i: nat, c: Client)
    requires Run(states, steps) && i < |states|
    ensures Watched(states[i], c)
  {
    hide Watched;
    hide Next;
    hide Enabled;
    hide Inv;
    hide Known;
    hide Locked;
    if i == 0 {
      WatchedAtFirst(c);
    } else {
      RunStep(states, steps, i);
      RunWatched(states, steps, i - 1, c);
      RunInv(states, steps, i - 1);
      InvParts(states[i - 1]);
      WatchedStep(states[i - 1], steps[i - 1], c);
    }
  }

  /** At every moment of every run a connected client is in exactly one place: on its way through
      Register, in the map, deleted and about to be closed, or closed. Only the last has a closed
      channel, and its pumps may run exactly once Register has returned. */
  lemma Whereabouts(states: seq<State>, steps: seq<Step>, i: nat, c: Client)
    requires Run(states, steps) && i < |states| && c in states[i].conns
    ensures var s := states[i];
            && (Unregistered(s, c) || c in s.clients || s.holder == Unregistering(c, Deleted) || s.conns[c].closed)
            && (Unregistered(s, c) ==> c !in s.clients && s.holder != Unregistering(c, Deleted) && !s.conns[c].closed)
            && (c in s.clients ==> s.holder != Unregistering(c, Deleted) && !s.conns[c].closed)
            && (s.holder == Unregistering(c, Deleted) ==> !s.conns[c].closed)
            && (c in s.ready <==> !Unregistered(s, c) && s.holder != Registered(c))
            && (s.conns[c].phase != NotStarted || c in s.reading ==> c in s.ready)
  {
    RunWatched(states, steps, i, c);
    RunInv(states, steps, i);
    InvParts(states[i]);
    hide Run;
    hide Inv;
    hide Known;
  }

  lemma LeavingStep(s: State, step: Step, c: Client)
    requires Enabled(s, step) && c in s.conns && !Unregistered(s, c) && Leaving(s, c)
    ensures Leaving(Next(s, step), c)
  {
    PastRegistration(s, step, c);
    hide WriterNext;
    hide CanStep;
    hide Unregistered;
    match step
    case LockUnregister(_) => assert Leaving(Next(s, step), c);
    case UnregisterDelete => assert Leaving(Next(s, step), c);
    case BroadcastSend(_, _) => assert Leaving(Next(s, step), c);
    case _ =>
  }

  /** Once past registration, leaving goes on until the client is out for good. */
  lemma {:induction false} LeavingLasts(states: seq<State>, steps: seq<Step>, i: nat, n: nat, c: Client)
    requires Run(states, steps) && i <= n < |states|
    requires c in states[i].conns && !Unregistered(states[i], c) && Leaving(states[i], c)
    ensures c in states[n].conns && !Unregistered(states[n], c) && Leaving(states[n], c)
    decreases n
  {
    hide *;
    if i < n {
      RunStep(states, steps, n);
      LeavingLasts(states, steps, i, n - 1, c);
      LeavingStep(states[n - 1], steps[n - 1], c);
      PastRegistration(states[n - 1], steps[n - 1], c);
    }
  }

  /** What a step of the reader says about its client. */
  lemma ReaderStep(s: State, c: Client)
    requires Enabled(s, ReaderFails(c)) && Watched(s, c)
    ensures var s' := Next(s, ReaderFails(c)); c in s'.conns && !Unregistered(s', c) && c in s'.waitingUnregister
  {
  }

  /** A reader that ends takes its client with it: ever after, the client is out of the map, or an
      Unregister of it is pending or under way. So with the lock free and nothing pending, it is out
      and its channel is closed. */
  lemma ReaderExitUnregisters(states: seq<State>, steps: seq<Step>, i: nat, n: nat, c: Client)
    requires Run(states, steps) && i < |steps| && i < n < |states| && steps[i] == ReaderFails(c)
    ensures c in states[n].conns
    ensures c !in states[n].clients || c in states[n].waitingUnregister || states[n].holder == Unregistering(c, Entered)
    ensures states[n].holder == Free && states[n].waitingUnregister == multiset{} ==>
              c !in states[n].clients && states[n].conns[c].closed
  {
    hide Watched;
    hide Next;
    hide Enabled;
    hide Run;
    RunStep(states, steps, i + 1);
    RunWatched(states, steps, i, c);
    ReaderStep(states[i], c);
    LeavingLasts(states, steps, i + 1, n, c);
    Whereabouts(states, steps, n, c);
  }

  lemma NotReadingStep(s: State, step: Step, c: Client)
    requires Enabled(s, step) && c in s.launched && c !in s.reading
    ensures c !in Next(s, step).reading
  {
    hide WriterNext;
    hide CanStep;
  }

  /** A reader that has ended never reads again. */
  lemma {:induction false} ReaderEndsOnce(states: seq<State>, steps: seq<Step>, i: nat, n: nat, c: Client)
    requires Run(states, steps) && i < |steps| && i < n < |states| && steps[i] == ReaderFails(c)
    ensures c !in states[n].reading && c in states[n].launched
    decreases n
  {
    RunStep(states, steps, n);
    if n == i + 1 {
      RunWatched(states, steps, i, c);
      assert states[n] == Next(states[i], ReaderFails(c));
      hide Run;
    } else {
      hide *;
      ReaderEndsOnce(states, steps, i, n - 1, c);
      NotReadingStep(states[n - 1], steps[n - 1], c);
      LaunchedStep(states[n - 1], steps[n - 1], c);
    }
  }

  /** A client in the map whose reader was launched is still being read, or is leaving. */
  lemma MappedIsRead(states: seq<State>, steps: seq<Step>, i: nat, n: nat, c: Client)
    requires Run(states, steps) && i < |steps| && i < n < |states| && steps[i] == StartReader(c) && c in states[n].clients
    ensures c in states[n].reading || c in states[n].waitingUnregister || states[n].holder == Unregistering(c, Entered)
  {
    RunStep(states, steps, i + 1);
    assert c in states[i + 1].launched;
    hide Run;
    hide Next;
    hide Enabled;
    LaunchedLasts(states, steps, i + 1, n, c);
    RunWatched(states, steps, n, c);
  }

  lemma LaunchedStep(s: State, step: Step, c: Client)
    requires Enabled(s, step) && c in s.launched
    ensures c in Next(s, step).launched && step != StartReader(c)
  {
    hide WriterNext;
    hide CanStep;
  }

  lemma {:induction false} LaunchedLasts(states: seq<State>, steps: seq<Step>, i: nat, n: nat, c: Client)
    requires Run(states, steps) && i <= n < |states| && c in states[i].launched
    ensures c in states[n].launched
    decreases n
  {
    hide *;
    if i < n {
      RunStep(states, steps, n);
      LaunchedLasts(states, steps, i, n - 1, c);
      LaunchedStep(states[n - 1], steps[n - 1], c);
    }
  }

  // ---- Writing out ---------------------------------------------------------------------------

  lemma RunOn(states: seq<State>, steps: seq<Step>, step: Step)
    requires Run(states, steps) && states != [] && Enabled(states[|states| - 1], step)
    ensures Run(states + [Next(states[|states| - 1], step)], steps + [step])
  {
    hide Next;
    hide Enabled;
    var all, path := states + [Next(states[|states| - 1], step)], steps + [step];
    assert all[0] == states[0];
    forall i {:trigger path[i]} | 0 <= i < |path|
      ensures Enabled(all[i], path[i]) && all[i + 1] == Next(all[i], path[i])
    {
      if i < |steps| { assert path[i] == steps[i] && all[i] == states[i] && all[i + 1] == states[i + 1]; }
    }
  }

  /** A writer step inside the hub moves its own connection and nothing else. */
  lemma WriterActs(s: State, c: Client, w: WriterStep)
    requires c in s.conns && CanStep(s.conns[c], w) && c in s.ready
    ensures Enabled(s, Writer(c, w))
    ensures var s' := Next(s, Writer(c, w));
            s' == s.(conns := s'.conns) && s'.conns == s.conns[c := WriterNext(s.conns[c], w)]
  {
    hide WriterNext;
    hide CanStep;
  }

  /** Any steps the writer can take by itself it can take in the hub, whatever else is going on there. */
  lemma {:induction false} WriterRuns(states: seq<State>, steps: seq<Step>, c: Client, ws: seq<WriterStep>, done: Conn)
    returns (states': seq<State>, steps': seq<Step>)
    requires Run(states, steps) && states != [] && c in states[|states| - 1].conns && c in states[|states| - 1].ready
    requires Leads(states[|states| - 1].conns[c], ws, done)
    ensures Run(states', steps') && |states'| == |states| + |ws| && |steps'| == |steps| + |ws|
    ensures states <= states' && steps <= steps'
    ensures c in states'[|states'| - 1].conns && states'[|states'| - 1].conns[c] == done
    decreases |ws|
  {
    hide Run;
    hide WriterNext;
    hide CanStep;
    hide Next;
    hide Enabled;
    var s := states[|states| - 1];
    if ws == [] {
      states', steps' := states, steps;
    } else {
      WriterActs(s, c, ws[0]);
      RunOn(states, steps, Writer(c, ws[0]));
      var s' := Next(s, Writer(c, ws[0]));
      states', steps' := WriterRuns(states + [s'], steps + [Writer(c, ws[0])], c, ws[1..], done);
    }
  }

  /** Whatever the hub is doing: a registered client whose channel has been closed and whose writer has
      not returned can be written out. Some continuation of the run sends it everything it was ever
      queued, in order, and then the Close frame. */
  lemma ClosedClientIsWrittenOut(states: seq<State>, steps: seq<Step>, c: Client) returns (states': seq<State>, steps': seq<Step>)
    requires Run(states, steps) && states != [] && c in states[|states| - 1].conns
    requires states[|states| - 1].conns[c].closed && states[|states| - 1].conns[c].phase != Stopped
    ensures Run(states', steps') && states <= states' && steps <= steps' && states' != []
    ensures c in states'[|states'| - 1].conns
    ensures var k := states'[|states'| - 1].conns[c]; k.closeFrame && k.flushed == k.queued == states[|states| - 1].conns[c].queued
  {
    var s := states[|states| - 1];
    RunInv(states, steps, |states| - 1);
    RunWatched(states, steps, |states| - 1, c);
    assert Sound(s.conns[c]);
    ClosedIsRegistered(s, c);
    hide *;
    var ws, done := ClosedIsWrittenOut(s.conns[c]);
    states', steps' := WriterRuns(states, steps, c, ws, done);
  }

  /** A closed channel belongs to a client that Register has long returned for. */
  lemma ClosedIsRegistered(s: State, c: Client)
    requires Inv(s) && Watched(s, c) && c in s.conns && s.conns[c].closed
    ensures c in s.ready
  {
  }

  // ---- Delivery -------------------------------------------------------------------------

  /** A broadcast reaches a client's channel at most once. */
  lemma EnqueuedAtMostOnce(states: seq<State>, steps: seq<Step>, n: nat, c: Client, i: nat, j: nat)
    requires Run(states, steps) && n < |states| && c in states[n].conns
    requires i < |states[n].conns[c].queued| && j < |states[n].conns[c].queued|
    requires states[n].conns[c].queued[i] == states[n].conns[c].queued[j]
    ensures i == j
  {
    RunInv(states, steps, n);
    assert InOrder(states[n].conns[c].queued, states[n].endedBefore);
  }

  /** Broadcasts once over stay over, and what was over when one began does not change. */
  ghost predicate FactsStay(s: State, s': State)
  {
    && s.ended <= s'.ended
    && forall b :: b in s.endedBefore ==> b in s'.endedBefore && s'.endedBefore[b] == s.endedBefore[b]
  }

  lemma FactsStayStep(s: State, step: Step)
    requires Enabled(s, step)
    ensures FactsStay(s, Next(s, step))
  {
    if step.BroadcastLock? {
      assert FactsStay(s, Next(s, step));
    } else {
      assert Next(s, step).endedBefore == s.endedBefore;
    }
  }

  lemma FactsStayOn(s: State, m: State, s': State)
    requires FactsStay(s, m) && FactsStay(m, s')
    ensures FactsStay(s, s')
  {
  }

  lemma {:induction false} BroadcastFactsStay(states: seq<State>, steps: seq<Step>, i: nat, n: nat)
    requires Run(states, steps) && i <= n < |states|
    ensures FactsStay(states[i], states[n])
    decreases n
  {
    if i < n {
      hide *;
      RunStep(states, steps, n);
      BroadcastFactsStay(states, steps, i, n - 1);
      FactsStayStep(states[n - 1], steps[n - 1]);
      FactsStayOn(states[i], states[n - 1], states[n]);
    }
  }

  /** Broadcasts that do not overlap reach every client in order: if `a` released the lock before
      `b` took it, then in no channel does `b` come before `a`. */
  lemma NonOverlappingInOrder(states: seq<State>, steps: seq<Step>, i: nat, j: nat, n: nat,
                              a: Broadcast, b: Broadcast, c: Client, p: nat, q: nat)
    requires Run(states, steps) && i < j < |steps| && n < |states|
    requires steps[i] == BroadcastUnlock(a) && steps[j] == BroadcastLock(b)
    requires c in states[n].conns && p < |states[n].conns[c].queued| && q < |states[n].conns[c].queued|
    requires states[n].conns[c].queued[p] == a && states[n].conns[c].queued[q] == b
    ensures p < q
  {
    RunInv(states, steps, n);
    assert InOrder(states[n].conns[c].queued, states[n].endedBefore);
    assert states[i + 1] == Next(states[i], steps[i]);
    assert states[i + 1].ended == states[i].ended + {a};
    BroadcastFactsStay(states, steps, i + 1, j);
    RunInv(states, steps, j);
    assert a in states[j].ended && a in states[j].endedBefore;
    assert Enabled(states[j], steps[j]) && states[j + 1] == Next(states[j], steps[j]);
    assert states[j + 1].endedBefore[b] == states[j].ended;
    if n <= j {
      BroadcastFactsStay(states, steps, n, j);
    } else {
      BroadcastFactsStay(states, steps, j + 1, n);
      assert a in states[n].endedBefore[b];
    }
  }

  /** When a Broadcast ends, every client in the map has it queued or has an Unregister pending. */
  lemma DeliveredAtEnd(states: seq<State>, steps: seq<Step>, i: nat, b: Broadcast, c: Client)
    requires Run(states, steps) && i < |steps| && steps[i] == BroadcastUnlock(b)
    requires c in states[i].clients
    ensures c in states[i].conns && Served(states[i], b, c)
  {
    RunInv(states, steps, i);
  }

  /** Since broadcast `b` ended: the client has it, or is being removed. */
  predicate ServedOrLeaving(s: State, b: Broadcast, c: Client)
  {
    c in s.conns && (Served(s, b, c) || s.holder == Unregistering(c, Entered))
  }

  lemma StepKeepsServed(s: State, step: Step, b: Broadcast, c: Client)
    requires Enabled(s, step) && Locked(s)
    requires c in s.clients && c in Next(s, step).clients && ServedOrLeaving(s, b, c)
    ensures ServedOrLeaving(Next(s, step), b, c)
  {
  }

  /** Only Register's own steps add to the map or to those on their way in. */
  ghost predicate AddsNobody(s: State, s': State, c: Client)
  {
    && (c in s.conns ==> c in s'.conns) && s'.waitingRegister == s.waitingRegister
    && (s'.holder == s.holder || !s'.holder.Registering?)
    && (c in s'.clients ==> c in s.clients)
  }

  lemma UnregisterAddsNobody(s: State, step: Step, c: Client)
    requires Enabled(s, step) && OfUnregister(step)
    ensures AddsNobody(s, Next(s, step), c)
  {
  }

  lemma BroadcastAddsNobody(s: State, step: Step, c: Client)
    requires Enabled(s, step) && OfBroadcast(step)
    ensures AddsNobody(s, Next(s, step), c)
  {
  }

  lemma PumpsAddNobody(s: State, step: Step, c: Client)
    requires Enabled(s, step) && OfPumps(step)
    ensures AddsNobody(s, Next(s, step), c)
  {
    hide WriterNext;
    hide CanStep;
  }

  lemma PastOwnRegister(s: State, step: Step, c: Client)
    requires Enabled(s, step) && OfRegister(step) && c in s.conns && !Unregistered(s, c)
    ensures c in Next(s, step).conns && !Unregistered(Next(s, step), c)
    ensures c in Next(s, step).clients ==> c in s.clients
  {
  }

  lemma PastRegistration(s: State, step: Step, c: Client)
    requires Enabled(s, step) && c in s.conns && !Unregistered(s, c)
    ensures c in Next(s, step).conns && !Unregistered(Next(s, step), c)
    ensures c in Next(s, step).clients ==> c in s.clients
  {
    hide Next;
    hide Enabled;
    if OfRegister(step) {
      PastOwnRegister(s, step, c);
    } else if OfUnregister(step) {
      UnregisterAddsNobody(s, step, c);
    } else if OfBroadcast(step) {
      BroadcastAddsNobody(s, step, c);
    } else {
      PumpsAddNobody(s, step, c);
    }
  }

  lemma InMapIsPast(s: State, c: Client)
    requires Inv(s) && c in s.clients
    ensures c in s.conns && !Unregistered(s, c)
  {
  }

  /** A client that has been registered never registers again. */
  lemma {:induction false} RegistersOnce(states: seq<State>, steps: seq<Step>, i: nat, n: nat, c: Client)
    requires Run(states, steps) && i <= n < |states| && c in states[i].clients
    ensures c in states[n].conns && !Unregistered(states[n], c)
    decreases n
  {
    hide Inv;
    hide Unregistered;
    if i == n {
      RunInv(states, steps, i);
      InMapIsPast(states[i], c);
    } else {
      RegistersOnce(states, steps, i, n - 1, c);
      PastRegistration(states[n - 1], steps[n - 1], c);
    }
  }

  /** Removal is final: a client that was in the map and no longer is never comes back. */
  lemma {:induction false} RemovalIsFinal(states: seq<State>, steps: seq<Step>, i: nat, m: nat, n: nat, c: Client)
    requires Run(states, steps) && i <= m <= n < |states| && c in states[i].clients && c !in states[m].clients
    ensures c !in states[n].clients
    decreases n
  {
    hide *;
    if m < n {
      RunShape(states, steps, n);
      RemovalIsFinal(states, steps, i, m, n - 1, c);
      RegistersOnce(states, steps, i, n - 1, c);
      PastRegistration(states[n - 1], steps[n - 1], c);
    }
  }

  lemma RunShape(states: seq<State>, steps: seq<Step>, n: nat)
    requires Run(states, steps) && n < |states|
    ensures |states| == |steps| + 1
    ensures n > 0 ==> Enabled(states[n - 1], steps[n - 1]) && states[n] == Next(states[n - 1], steps[n - 1]) && Locked(states[n - 1])
  {
    if n > 0 {
      hide Locked;
      hide Known;
      hide AllSound;
      hide Tracked;
      hide Histories;
      hide Delivering;
      RunInv(states, steps, n - 1);
      RunStep(states, steps, n);
    }
  }

  lemma ServedCounts(s: State, b: Broadcast, c: Client)
    requires c in s.conns && Served(s, b, c)
    ensures ServedOrLeaving(s, b, c)
  {
  }

  lemma {:induction false} StaysServed(states: seq<State>, steps: seq<Step>, i: nat, n: nat, b: Broadcast, c: Client)
    requires Run(states, steps) && i < |steps| && steps[i] == BroadcastUnlock(b) && i <= n < |states|
    requires c in states[i].clients && c in states[n].clients
    ensures ServedOrLeaving(states[n], b, c)
    decreases n
  {
    hide *;
    RunShape(states, steps, n);
    if n == i {
      DeliveredAtEnd(states, steps, i, b, c);
      ServedCounts(states[i], b, c);
    } else {
      var s, step := states[n - 1], steps[n - 1];
      RegistersOnce(states, steps, i, n - 1, c);
      PastRegistration(s, step, c);
      StaysServed(states, steps, i, n - 1, b, c);
      StepKeepsServed(s, step, b, c);
    }
  }

  /** Nobody is silently skipped: a client that was in the map when `b` ended and still is has `b`
      queued, or is about to be removed; so whenever no Unregister is pending and the lock is free,
      every client that stayed received the broadcast. */
  lemma NobodySkipped(states: seq<State>, steps: seq<Step>, i: nat, n: nat, b: Broadcast, c: Client)
    requires Run(states, steps) && i < |steps| && steps[i] == BroadcastUnlock(b) && i <= n < |states|
    requires c in states[i].clients && c in states[n].clients
    ensures c in states[n].conns
    ensures b in states[n].conns[c].queued || c in states[n].waitingUnregister || states[n].holder == Unregistering(c, Entered)
    ensures states[n].waitingUnregister == multiset{} && states[n].holder == Free ==> b in states[n].conns[c].queued
  {
    StaysServed(states, steps, i, n, b, c);
    var s := states[n];
    assert ServedOrLeaving(s, b, c);
  }

  // ---- The hub object ------------------------------------------------------------------

  datatype Reached = Reached(s: State) | Blocked

  /** Where a list of steps leads, if each is enabled. */
  function Exec(s: State, steps: seq<Step>): Reached
  {
    if steps == [] then Reached(s)
    else match Exec(s, steps[..|steps| - 1])
      case Blocked => Blocked
      case Reached(m) =>
        if Enabled(m, steps[|steps| - 1]) then Reached(Next(m, steps[|steps| - 1])) else Blocked
  }

  lemma ExecOne(s: State, steps: seq<Step>, m: State, step: Step)
    requires Exec(s, steps) == Reached(m) && Enabled(m, step)
    ensures Exec(s, steps + [step]) == Reached(Next(m, step))
  {
    assert (steps + [step])[..|steps|] == steps;
  }

  lemma InvFacts(s: State)
    requires Inv(s)
    ensures !s.panicked
    ensures s.clients <= s.conns.Keys
    ensures s.holder.Unregistering? && s.holder.stage == Deleted ==> Enabled(s, UnregisterClose)
  {
  }

  /** Hub as an object whose methods run without interference: each is then exactly the run of its
      own steps, so the step relation above has these bodies as its sequential instances. */
  class HubObject {
    var clients: set<Client>
    var conns: map<Client, Conn>
    var spawned: multiset<Client>
    ghost var rest: State

    /** The protocol state with the lock free and no broadcast running. */
    ghost function View(): State
      reads this
    {
      rest.(clients := clients, conns := conns, waitingUnregister := spawned,
            holder := Free, broadcasts := map[], panicked := false)
    }

    method Register(c: Client)
      requires Inv(View()) && c in rest.waitingRegister
      modifies this
      ensures Inv(View()) && clients == old(clients) + {c} && conns == old(conns) && spawned == old(spawned)
      ensures Exec(old(View()), [LockRegister(c), RegisterInsert, RegisterUnlock]) == Reached(View())
    {
      hide Inv;
      ghost var s0 := View();
      ghost var s2 := Next(Next(s0, LockRegister(c)), RegisterInsert);
      TwoSteps(s0, LockRegister(c), RegisterInsert);
      InvStep(s2, RegisterUnlock);
      ExecOne(s0, [LockRegister(c), RegisterInsert], s2, RegisterUnlock);
      assert [LockRegister(c), RegisterInsert] + [RegisterUnlock] == [LockRegister(c), RegisterInsert, RegisterUnlock];
      clients := clients + {c};
      rest := rest.(waitingRegister := rest.waitingRegister - {c}, ready := rest.ready + {c});
    }

    /** Delete and close if present; a repeated call does nothing. */
    method Unregister(c: Client)
      requires Inv(View()) && c in spawned
      modifies this
      ensures Inv(View()) && View() == AfterUnregister(old(View()), c)
      ensures Exec(old(View()), UnregisterSteps(old(clients), c)) == Reached(View())
    {
      hide Inv;
      hide Exec;
      hide Next;
      hide Enabled;
      UnregisterRun(View(), c);
      spawned := spawned - multiset{c};
      if c in clients {
        clients := clients - {c};
        conns := conns[c := CloseChannel(conns[c])];
      } else {
        assert clients - {c} == clients;
      }
      assert View() == AfterUnregister(old(View()), c);
    }

    /** The select loop over the map, in any order: enqueue, or spawn an Unregister for a full
        client. No send can panic, nobody is visited twice, and everybody ends up served. */
    method Broadcast(b: Broadcast) returns (ghost steps: seq<Step>)
      requires Inv(View()) && b !in rest.endedBefore
      modifies this
      ensures Inv(View()) && clients == old(clients)
      ensures Exec(old(View()), steps) == Reached(View())
      ensures forall c :: c in clients ==> c in conns && (b in conns[c].queued || c in spawned)
    {
      hide Inv;
      hide Exec;
      hide Next;
      hide Enabled;
      ghost var s0 := View();
      ghost var s := s0.(broadcasts := map[b := clients], endedBefore := s0.endedBefore[b := s0.ended]);
      steps := [BroadcastLock(b)];
      LockStep(s0, b);
      var todo := clients;
      while todo != {}
        invariant todo <= clients == old(clients)
        invariant Inv(s) && Exec(s0, steps) == Reached(s)
        invariant rest == old(rest)
        invariant s == s0.(conns := conns, waitingUnregister := spawned, broadcasts := map[b := todo],
                           endedBefore := s0.endedBefore[b := s0.ended])
        decreases todo
      {
        var c :| c in todo;
        SendStep(s0, steps, s, b, c);
        if |conns[c].buffer| < CAPACITY {
          conns := conns[c := Enqueue(conns[c], b)];
        } else {
          spawned := spawned + multiset{c};
        }
        todo := todo - {c};
        s := s.(broadcasts := map[b := todo], conns := conns, waitingUnregister := spawned);
        steps := steps + [BroadcastSend(b, c)];
      }
      EverybodyServed(s, b);
      UnlockStep(s0, steps, s, b);
      steps := steps + [BroadcastUnlock(b)];
      rest := rest.(endedBefore := rest.endedBefore[b := rest.ended], ended := rest.ended + {b});
    }
  }

  function UnregisterSteps(clients: set<Client>, c: Client): seq<Step>
  {
    [LockUnregister(c), UnregisterDelete] + (if c in clients then [UnregisterClose] else []) + [UnregisterUnlock]
  }

  /** One pending call gone; the client, if it was in the map, removed and its channel closed. */
  function AfterUnregister(s: State, c: Client): State
  {
    s.(waitingUnregister := s.waitingUnregister - multiset{c}, clients := s.clients - {c},
       conns := if c in s.clients && c in s.conns then s.conns[c := CloseChannel(s.conns[c])] else s.conns)
  }

  lemma UnregisterRun(s: State, c: Client)
    requires Inv(s) && Unlocked(s) && c in s.waitingUnregister
    ensures s.clients <= s.conns.Keys && Inv(AfterUnregister(s, c))
    ensures Exec(s, UnregisterSteps(s.clients, c)) == Reached(AfterUnregister(s, c))
  {
    InvFacts(s);
    hide Inv;
    hide Exec;
    if c in s.clients {
      UnregisterPresent(s, c);
    } else {
      UnregisterAbsent(s, c);
    }
  }

  lemma UnregisterPresent(s: State, c: Client)
    requires Inv(s) && Unlocked(s) && c in s.waitingUnregister && c in s.clients
    ensures Inv(AfterUnregister(s, c))
    ensures Exec(s, UnregisterSteps(s.clients, c)) == Reached(AfterUnregister(s, c))
  {
    hide Inv;
    hide Exec;
    InvFacts(s);
    TwoSteps(s, LockUnregister(c), UnregisterDelete);
    var m := Next(Next(s, LockUnregister(c)), UnregisterDelete);
    var steps := [LockUnregister(c), UnregisterDelete];
    UnregisterFinish(s, steps, m);
    assert UnregisterSteps(s.clients, c) == steps + [UnregisterClose] + [UnregisterUnlock];
    assert m.(conns := m.conns[c := CloseChannel(m.conns[c])], holder := Free) == AfterUnregister(s, c);
  }

  /** A repeated Unregister, statement by statement. */
  lemma AbsentSteps(s: State, c: Client)
    requires Unlocked(s) && c in s.waitingUnregister && c !in s.clients
    ensures Enabled(s, LockUnregister(c)) && Enabled(Next(s, LockUnregister(c)), UnregisterDelete)
    ensures var m := Next(Next(s, LockUnregister(c)), UnregisterDelete);
            Enabled(m, UnregisterUnlock) && Next(m, UnregisterUnlock) == AfterUnregister(s, c)
  {
    assert s.clients - {c} == s.clients;
  }

  lemma UnregisterAbsent(s: State, c: Client)
    requires Inv(s) && Unlocked(s) && c in s.waitingUnregister && c !in s.clients
    ensures Inv(AfterUnregister(s, c))
    ensures Exec(s, UnregisterSteps(s.clients, c)) == Reached(AfterUnregister(s, c))
  {
    hide Inv;
    hide Exec;
    hide Next;
    hide Enabled;
    hide AfterUnregister;
    AbsentSteps(s, c);
    TwoSteps(s, LockUnregister(c), UnregisterDelete);
    var m := Next(Next(s, LockUnregister(c)), UnregisterDelete);
    var steps := [LockUnregister(c), UnregisterDelete];
    InvStep(m, UnregisterUnlock);
    ExecOne(s, steps, m, UnregisterUnlock);
    assert UnregisterSteps(s.clients, c) == steps + [UnregisterUnlock];
  }

  lemma UnregisterFinish(s: State, steps: seq<Step>, m: State)
    requires Inv(m) && Exec(s, steps) == Reached(m) && m.holder.Unregistering? && m.holder.stage == Deleted
    ensures m.holder.c in m.conns
    ensures var done := m.(conns := m.conns[m.holder.c := CloseChannel(m.conns[m.holder.c])], holder := Free);
            Inv(done) && Exec(s, steps + [UnregisterClose] + [UnregisterUnlock]) == Reached(done)
  {
    hide Inv;
    InvFacts(m);
    var m' := Next(m, UnregisterClose);
    InvStep(m, UnregisterClose);
    InvFacts(m');
    ExecOne(s, steps, m, UnregisterClose);
    InvStep(m', UnregisterUnlock);
    ExecOne(s, steps + [UnregisterClose], m', UnregisterUnlock);
  }

  lemma TwoSteps(s: State, first: Step, second: Step)
    requires Inv(s) && Enabled(s, first) && Enabled(Next(s, first), second)
    ensures Exec(s, [first, second]) == Reached(Next(Next(s, first), second))
    ensures Inv(Next(Next(s, first), second))
  {
    hide Inv;
    InvStep(s, first);
    InvStep(Next(s, first), second);
    ExecOne(s, [], s, first);
    ExecOne(s, [first], Next(s, first), second);
    assert [] + [first] == [first];
    assert [first] + [second] == [first, second];
  }

  /** A client still to visit is in the map, so its channel exists and is open. */
  lemma SendEnabled(s: State, b: Broadcast, c: Client)
    requires Inv(s) && b in s.broadcasts && c in s.broadcasts[b]
    ensures Enabled(s, BroadcastSend(b, c)) && !s.conns[c].closed
  {
  }

  lemma LockStep(s0: State, b: Broadcast)
    requires Inv(s0) && Unlocked(s0) && b !in s0.endedBefore
    ensures var s := s0.(broadcasts := map[b := s0.clients], endedBefore := s0.endedBefore[b := s0.ended]);
            Inv(s) && Exec(s0, [BroadcastLock(b)]) == Reached(s)
  {
    hide Inv;
    InvStep(s0, BroadcastLock(b));
    ExecOne(s0, [], s0, BroadcastLock(b));
    assert [] + [BroadcastLock(b)] == [BroadcastLock(b)];
  }

  lemma SendStep(s0: State, steps: seq<Step>, s: State, b: Broadcast, c: Client)
    requires Inv(s) && s.broadcasts.Keys == {b} && c in s.broadcasts[b] && Exec(s0, steps) == Reached(s)
    ensures c in s.conns
    ensures var k, todo := s.conns[c], map[b := s.broadcasts[b] - {c}];
            var s' := if |k.buffer| < CAPACITY
                      then s.(broadcasts := todo, conns := s.conns[c := Enqueue(k, b)])
                      else s.(broadcasts := todo, waitingUnregister := s.waitingUnregister + multiset{c});
            Inv(s') && Exec(s0, steps + [BroadcastSend(b, c)]) == Reached(s')
  {
    hide Inv;
    SendEnabled(s, b, c);
    InvStep(s, BroadcastSend(b, c));
    ExecOne(s0, steps, s, BroadcastSend(b, c));
    assert s.broadcasts[b := s.broadcasts[b] - {c}] == map[b := s.broadcasts[b] - {c}];
  }

  lemma UnlockStep(s0: State, steps: seq<Step>, s: State, b: Broadcast)
    requires Inv(s) && s.broadcasts == map[b := {}] && Exec(s0, steps) == Reached(s)
    ensures var s' := s.(broadcasts := map[], ended := s.ended + {b});
            Inv(s') && Exec(s0, steps + [BroadcastUnlock(b)]) == Reached(s')
  {
    hide Inv;
    InvStep(s, BroadcastUnlock(b));
    ExecOne(s0, steps, s, BroadcastUnlock(b));
    assert s.broadcasts - {b} == map[];
  }

  lemma EverybodyServed(s: State, b: Broadcast)
    requires Inv(s) && b in s.broadcasts && s.broadcasts[b] == {}
    ensures forall c :: c in s.clients ==> c in s.conns && Served(s, b, c)
  {
  }
}
