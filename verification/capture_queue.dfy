/** The capture queue of the proxy: concurrent producers, drop-oldest eviction, one
    consumer and close, as interleaved atomic steps. */
module CaptureQueue {
  import opened Text

  /** `maxCaptureBytes` and `maxCapturedBody`. */
  const MAX_CAPTURE_BYTES: nat := 256 * 1024 * 1024
  const MAX_CAPTURED_BODY: nat := 1024 * 1024

  /** A request body and a response body, each cut by a `CappedBuffer`. */
  const MAX_EXCHANGE_BYTES: nat := 2 * MAX_CAPTURED_BODY

  datatype Exchange = Exchange(id: nat, size: nat, inbound: bool)

  /** Where a `forward` call stands in its capture section. */
  datatype Pc =
    | Idle
    | Rejecting(ex: Exchange)                     // over the byte limit, drop not counted yet
    | Checked(ex: Exchange)                       // within the byte limit, bytes not added yet
    | Added(ex: Exchange)                         // bytes added, read lock not taken yet
    | Locked(ex: Exchange)                        // read lock held, closed flag not read yet
    | Sending(ex: Exchange)
    | Evicting(ex: Exchange)                      // the queue was full
    | Holding(ex: Exchange, victim: Exchange)     // oldest received, not released yet
    | Counting(ex: Exchange, victim: Exchange)    // oldest released, drop not counted yet
    | Resending(ex: Exchange)
    | Refusing(ex: Exchange)                      // own exchange not released yet
    | Refused(ex: Exchange)                       // own exchange released, drop not counted yet
    | Leaving                                     // about to unlock

  datatype Config = Config(threads: nat, capacity: nat)

  datatype State = State(
    threads: seq<Pc>,
    queue: seq<Exchange>,
    consumer: Option<Exchange>,
    closed: bool,
    queuedBytes: int,
    capturesQueued: nat,
    capturesDropped: nat,
    webhooksDropped: nat,
    // what happened so far
    arrived: seq<Exchange>,
    sent: seq<Exchange>,
    taken: seq<Exchange>,
    consumed: seq<Exchange>,
    rejected: seq<Exchange>,
    refused: seq<Exchange>,
    evicted: seq<Exchange>,
    evictors: seq<Exchange>,                      // for whom each of them had to go
    released: seq<Exchange>)

  function Init(c: Config): State {
    State(seq(c.threads, _ => Idle), [], None, false, 0, 0, 0, 0, [], [], [], [], [], [], [], [], [])
  }

  /** One atomic step; `t` is the thread that takes it. */
  datatype Action =
    | Arrive(t: nat, size: nat, inbound: bool)
    | CountRejected(t: nat)
    | AddBytes(t: nat)
    | TakeLock(t: nat)
    | TestClosed(t: nat)
    | Send(t: nat)
    | Evict(t: nat)
    | ReleaseVictim(t: nat)
    | CountVictim(t: nat)
    | Resend(t: nat)
    | ReleaseOwn(t: nat)
    | CountOwn(t: nat)
    | Unlock(t: nat)
    | Close
    | Receive
    | Release

  predicate HoldsLock(pc: Pc) { !pc.Idle? && !pc.Rejecting? && !pc.Checked? && !pc.Added? }

  predicate IsThread(s: State, t: nat) { t < |s.threads| }

  predicate Enabled(s: State, a: Action) {
    match a
    case Arrive(t, size, _) => IsThread(s, t) && s.threads[t].Idle? && size <= MAX_EXCHANGE_BYTES
    case CountRejected(t) => IsThread(s, t) && s.threads[t].Rejecting?
    case AddBytes(t) => IsThread(s, t) && s.threads[t].Checked?
    case TakeLock(t) => IsThread(s, t) && s.threads[t].Added?
    case TestClosed(t) => IsThread(s, t) && s.threads[t].Locked?
    case Send(t) => IsThread(s, t) && s.threads[t].Sending?
    case Evict(t) => IsThread(s, t) && s.threads[t].Evicting?
    case ReleaseVictim(t) => IsThread(s, t) && s.threads[t].Holding?
    case CountVictim(t) => IsThread(s, t) && s.threads[t].Counting?
    case Resend(t) => IsThread(s, t) && s.threads[t].Resending?
    case ReleaseOwn(t) => IsThread(s, t) && s.threads[t].Refusing?
    case CountOwn(t) => IsThread(s, t) && s.threads[t].Refused?
    case Unlock(t) => IsThread(s, t) && s.threads[t].Leaving?
    case Close => !s.closed && forall t | 0 <= t < |s.threads| :: !HoldsLock(s.threads[t])
    case Receive => s.consumer.None? && s.queue != []
    case Release => s.consumer.Some?
  }

  /** `dropped()`: the counter is chosen by the calling forward, not by the exchange lost. */
  function CountDrop(s: State, inbound: bool): State {
    if inbound then s.(webhooksDropped := s.webhooksDropped + 1)
    else s.(capturesDropped := s.capturesDropped + 1)
  }

  function Move(s: State, t: nat, pc: Pc): State
    requires IsThread(s, t)
  {
    s.(threads := s.threads[t := pc])
  }

  function Enqueue(s: State, ex: Exchange): State {
    s.(queue := s.queue + [ex], sent := s.sent + [ex], capturesQueued := s.capturesQueued + 1)
  }

  /** Receive from the channel: the oldest exchange. */
  function Dequeue(s: State): State
    requires s.queue != []
  {
    s.(queue := s.queue[1..], taken := s.taken + [s.queue[0]])
  }

  function Free(s: State, ex: Exchange): State {
    s.(queuedBytes := s.queuedBytes - ex.size, released := s.released + [ex])
  }

  function Next(c: Config, s: State, a: Action): State
    requires Enabled(s, a)
  {
    match a
    case Arrive(t, size, inbound) =>
      var ex := Exchange(|s.arrived|, size, inbound);
      var s1 := s.(arrived := s.arrived + [ex]);
      if s.queuedBytes + size > MAX_CAPTURE_BYTES then Move(s1, t, Rejecting(ex)) else Move(s1, t, Checked(ex))
    case CountRejected(t) =>
      var ex := s.threads[t].ex;
      Move(CountDrop(s, ex.inbound).(rejected := s.rejected + [ex]), t, Idle)
    case AddBytes(t) =>
      var ex := s.threads[t].ex;
      Move(s.(queuedBytes := s.queuedBytes + ex.size), t, Added(ex))
    case TakeLock(t) => Move(s, t, Locked(s.threads[t].ex))
    case TestClosed(t) =>
      var ex := s.threads[t].ex;
      Move(s, t, if s.closed then Refusing(ex) else Sending(ex))
    case Send(t) =>
      var ex := s.threads[t].ex;
      if |s.queue| < c.capacity then Move(Enqueue(s, ex), t, Leaving) else Move(s, t, Evicting(ex))
    case Evict(t) =>
      var ex := s.threads[t].ex;
      if s.queue != [] then Move(Dequeue(s), t, Holding(ex, s.queue[0])) else Move(s, t, Resending(ex))
    case ReleaseVictim(t) =>
      var pc := s.threads[t];
      Move(Free(s, pc.victim), t, Counting(pc.ex, pc.victim))
    case CountVictim(t) =>
      var pc := s.threads[t];
      Move(CountDrop(s, pc.ex.inbound).(evicted := s.evicted + [pc.victim], evictors := s.evictors + [pc.ex]), t, Resending(pc.ex))
    case Resend(t) =>
      var ex := s.threads[t].ex;
      if |s.queue| < c.capacity then Move(Enqueue(s, ex), t, Leaving) else Move(s, t, Refusing(ex))
    case ReleaseOwn(t) =>
      var ex := s.threads[t].ex;
      Move(Free(s, ex), t, Refused(ex))
    case CountOwn(t) =>
      var ex := s.threads[t].ex;
      Move(CountDrop(s, ex.inbound).(refused := s.refused + [ex]), t, Leaving)
    case Unlock(t) => Move(s, t, Idle)
    case Close => s.(closed := true)
    case Receive => Dequeue(s).(consumer := Some(s.queue[0]))
    case Release => Free(s, s.consumer.value).(consumer := None, consumed := s.consumed + [s.consumer.value])
  }

  /** A run: every step enabled where it is taken. */
  ghost predicate Runs(c: Config, s: State, actions: seq<Action>, s': State)
    decreases |actions|
  {
    if actions == [] then s' == s
    else Enabled(s, actions[0]) && Runs(c, Next(c, s, actions[0]), actions[1..], s')
  }

  ghost predicate Reachable(c: Config, s: State) {
    exists actions: seq<Action> :: Runs(c, Init(c), actions, s)
  }

  // ---- What each thread accounts for ----

  function One(x: Exchange, e: Exchange): nat { if x == e then 1 else 0 }

  /** How often `e` is in this thread's hands, not yet in a queue or a tally. */
  function Held(pc: Pc, e: Exchange): nat {
    match pc
    case Idle | Leaving => 0
    case Holding(ex, victim) => One(ex, e) + One(victim, e)
    case Counting(ex, victim) => One(ex, e) + One(victim, e)
    case Rejecting(ex) => One(ex, e)
    case Checked(ex) => One(ex, e)
    case Added(ex) => One(ex, e)
    case Locked(ex) => One(ex, e)
    case Sending(ex) => One(ex, e)
    case Evicting(ex) => One(ex, e)
    case Resending(ex) => One(ex, e)
    case Refusing(ex) => One(ex, e)
    case Refused(ex) => One(ex, e)
  }

  /** Of those, the ones already released. */
  function Freed(pc: Pc, e: Exchange): nat {
    match pc
    case Counting(_, victim) => One(victim, e)
    case Refused(ex) => One(ex, e)
    case _ => 0
  }

  function HeldOf(e: Exchange): Pc -> nat { pc => Held(pc, e) }

  function FreedOf(e: Exchange): Pc -> nat { pc => Freed(pc, e) }

  /** Bytes this thread has added and not released. */
  function Charged(pc: Pc): nat {
    match pc
    case Added(ex) => ex.size
    case Locked(ex) => ex.size
    case Sending(ex) => ex.size
    case Evicting(ex) => ex.size
    case Holding(ex, victim) => ex.size + victim.size
    case Counting(ex, _) => ex.size
    case Resending(ex) => ex.size
    case Refusing(ex) => ex.size
    case _ => 0
  }

  /** Bytes this thread is about to add, its check being past. */
  function Pending(pc: Pc): nat { if pc.Checked? then pc.ex.size else 0 }

  function Total(ts: seq<Pc>, f: Pc -> nat): nat {
    if ts == [] then 0 else f(ts[0]) + Total(ts[1..], f)
  }

  /** How often `e` occurs. */
  function Occ(q: seq<Exchange>, e: Exchange): nat {
    if q == [] then 0 else One(q[0], e) + Occ(q[1..], e)
  }

  function Bytes(q: seq<Exchange>): nat {
    if q == [] then 0 else q[0].size + Bytes(q[1..])
  }

  lemma {:induction false} TotalUpdate(ts: seq<Pc>, f: Pc -> nat, t: nat, pc: Pc)
    requires t < |ts|
    ensures Total(ts[t := pc], f) == Total(ts, f) - f(ts[t]) + f(pc)
  {
    if t > 0 {
      assert ts[t := pc][1..] == ts[1..][t - 1 := pc];
      TotalUpdate(ts[1..], f, t - 1, pc);
    } else {
      assert ts[t := pc][1..] == ts[1..];
    }
  }

  lemma {:induction false} OccAppend(q: seq<Exchange>, x: Exchange, e: Exchange)
    ensures Occ(q + [x], e) == Occ(q, e) + One(x, e)
  {
    if q != [] {
      assert (q + [x])[1..] == q[1..] + [x];
      OccAppend(q[1..], x, e);
    } else {
      assert (q + [x])[1..] == [];
    }
  }

  lemma {:induction false} BytesAppend(q: seq<Exchange>, ex: Exchange)
    ensures Bytes(q + [ex]) == Bytes(q) + ex.size
  {
    if q != [] {
      assert (q + [ex])[1..] == q[1..] + [ex];
      BytesAppend(q[1..], ex);
    }
  }

  // ---- What every step keeps ----

  /** The thread an action belongs to; the rest are the closer's and the consumer's. */
  predicate IsThreadStep(a: Action) { !a.Close? && !a.Receive? && !a.Release? }

  lemma OneThreadMoves(c: Config, s: State, a: Action)
    requires Enabled(s, a)
    ensures IsThreadStep(a) ==> IsThread(s, a.t) && |Next(c, s, a).threads| == |s.threads|
                                && Next(c, s, a).threads == s.threads[a.t := Next(c, s, a).threads[a.t]]
    ensures !IsThreadStep(a) ==> Next(c, s, a).threads == s.threads
  {}

  function InHand(o: Option<Exchange>, e: Exchange): nat { if o.Some? then One(o.value, e) else 0 }

  /** How often `e` is queued, consumed or dropped. */
  function Tallied(s: State, e: Exchange): nat {
    Occ(s.queue, e) + InHand(s.consumer, e) + Occ(s.consumed, e)
    + Occ(s.rejected, e) + Occ(s.refused, e) + Occ(s.evicted, e)
  }

  /** How often `e` is anywhere: in a thread's hands, queued, with the consumer or tallied. */
  function Places(s: State, e: Exchange): nat { Total(s.threads, HeldOf(e)) + Tallied(s, e) }

  /** Every exchange that arrived is in exactly one place, and nothing else is anywhere. */
  ghost predicate Conserved(s: State) { forall e :: Places(s, e) == Occ(s.arrived, e) }

  predicate IsSend(a: Action) { a.Send? || a.Resend? }

  ghost predicate KeepsPlaces(c: Config, s: State, a: Action, e: Exchange)
    requires Enabled(s, a)
  {
    var s' := Next(c, s, a);
    if IsThreadStep(a) then
      Held(s'.threads[a.t], e) + Tallied(s', e) - Occ(s'.arrived, e) == Held(s.threads[a.t], e) + Tallied(s, e) - Occ(s.arrived, e)
    else Tallied(s', e) == Tallied(s, e) && s'.arrived == s.arrived
  }

  predicate IsCount(a: Action) { a.CountRejected? || a.CountVictim? || a.CountOwn? }

  /** Steps that touch neither the queue nor a tally. */
  predicate IsPrivate(a: Action) {
    a.AddBytes? || a.TakeLock? || a.TestClosed? || a.ReleaseVictim? || a.ReleaseOwn? || a.Unlock?
  }

  lemma PrivatePlaces(c: Config, s: State, a: Action, e: Exchange)
    requires Enabled(s, a) && IsPrivate(a)
    ensures KeepsPlaces(c, s, a, e)
  {
    hide Occ, One;
  }

  lemma CountPlaces(c: Config, s: State, a: Action, e: Exchange)
    requires Enabled(s, a) && IsCount(a)
    ensures KeepsPlaces(c, s, a, e)
  {
    hide Occ, One;
    match a
    case CountRejected(t) => OccAppend(s.rejected, s.threads[t].ex, e);
    case CountVictim(t) => OccAppend(s.evicted, s.threads[t].victim, e);
    case CountOwn(t) => OccAppend(s.refused, s.threads[t].ex, e);
    case _ =>
  }

  lemma ChannelPlaces(c: Config, s: State, a: Action, e: Exchange)
    requires Enabled(s, a) && (IsSend(a) || a.Evict?)
    ensures KeepsPlaces(c, s, a, e)
  {
    hide Occ, One;
    if a.Evict? {
      if s.queue != [] { OccFirst(s.queue, e); }
    } else {
      OccAppend(s.queue, s.threads[a.t].ex, e);
    }
  }

  lemma OutsidePlaces(c: Config, s: State, a: Action, e: Exchange)
    requires Enabled(s, a) && (!IsThreadStep(a) || a.Arrive?)
    ensures KeepsPlaces(c, s, a, e)
  {
    hide Occ, One;
    match a
    case Arrive(t, size, inbound) => OccAppend(s.arrived, Exchange(|s.arrived|, size, inbound), e);
    case Receive => OccFirst(s.queue, e);
    case Release => OccAppend(s.consumed, s.consumer.value, e);
    case _ =>
  }

  lemma StepPlaces(c: Config, s: State, a: Action, e: Exchange)
    requires Enabled(s, a)
    ensures KeepsPlaces(c, s, a, e)
  {
    hide Enabled, KeepsPlaces;
    if IsPrivate(a) { PrivatePlaces(c, s, a, e); }
    else if IsCount(a) { CountPlaces(c, s, a, e); }
    else if IsSend(a) || a.Evict? { ChannelPlaces(c, s, a, e); }
    else { OutsidePlaces(c, s, a, e); }
  }

  lemma OccFirst(q: seq<Exchange>, e: Exchange)
    requires q != []
    ensures Occ(q, e) == One(q[0], e) + Occ(q[1..], e)
  {}

  lemma StepConserves(c: Config, s: State, a: Action)
    requires Enabled(s, a) && Conserved(s)
    ensures Conserved(Next(c, s, a))
  {
    OneThreadMoves(c, s, a);
    hide Next, Tallied, Enabled, Total, Occ, Held;
    var s' := Next(c, s, a);
    forall e ensures Places(s', e) == Occ(s'.arrived, e) {
      assert Places(s, e) == Occ(s.arrived, e);
      StepPlaces(c, s, a, e);
      if IsThreadStep(a) { TotalUpdate(s.threads, HeldOf(e), a.t, s'.threads[a.t]); }
    }
  }

  /** The byte counter is the bytes added and not yet released. */
  ghost predicate BytesExact(s: State) {
    s.queuedBytes == Total(s.threads, Charged) + Bytes(s.queue) + (if s.consumer.Some? then s.consumer.value.size else 0)
  }

  ghost predicate KeepsBytes(c: Config, s: State, a: Action)
    requires Enabled(s, a) && IsThreadStep(a)
  {
    var s' := Next(c, s, a);
    && s'.consumer == s.consumer
    && s'.queuedBytes - Charged(s'.threads[a.t]) - Bytes(s'.queue) == s.queuedBytes - Charged(s.threads[a.t]) - Bytes(s.queue)
  }

  lemma SendBytes(c: Config, s: State, a: Action)
    requires Enabled(s, a) && IsSend(a)
    ensures KeepsBytes(c, s, a)
  {
    hide Bytes;
    BytesAppend(s.queue, s.threads[a.t].ex);
  }

  lemma ThreadBytes(c: Config, s: State, a: Action)
    requires Enabled(s, a) && IsThreadStep(a)
    ensures KeepsBytes(c, s, a)
  {
    if IsSend(a) {
      hide Bytes, Charged, Next, Enabled;
      SendBytes(c, s, a);
    }
  }

  lemma StepKeepsBytes(c: Config, s: State, a: Action)
    requires Enabled(s, a) && BytesExact(s)
    ensures BytesExact(Next(c, s, a))
  {
    hide Total;
    OneThreadMoves(c, s, a);
    if IsThreadStep(a) {
      hide Next, Enabled, Bytes;
      TotalUpdate(s.threads, Charged, a.t, Next(c, s, a).threads[a.t]);
      ThreadBytes(c, s, a);
    }
  }

  /** Bytes queued plus bytes about to be added stay within the limit and one exchange for
      every other thread; a checked exchange is no larger than two captured bodies. */
  ghost predicate Bounded(s: State) {
    && s.threads != []
    && (forall t | 0 <= t < |s.threads| :: Pending(s.threads[t]) <= MAX_EXCHANGE_BYTES)
    && s.queuedBytes + Total(s.threads, Pending) <= MAX_CAPTURE_BYTES + (|s.threads| - 1) * MAX_EXCHANGE_BYTES
  }

  lemma {:induction false} PendingBound(ts: seq<Pc>, t: nat)
    requires t < |ts| && ts[t].Idle? && forall i | 0 <= i < |ts| :: Pending(ts[i]) <= MAX_EXCHANGE_BYTES
    ensures Total(ts, Pending) <= (|ts| - 1) * MAX_EXCHANGE_BYTES
  {
    if t > 0 { PendingBound(ts[1..], t - 1); } else { PendingSum(ts[1..]); }
  }

  lemma {:induction false} PendingSum(ts: seq<Pc>)
    requires forall i | 0 <= i < |ts| :: Pending(ts[i]) <= MAX_EXCHANGE_BYTES
    ensures Total(ts, Pending) <= |ts| * MAX_EXCHANGE_BYTES
  {
    if ts != [] { PendingSum(ts[1..]); }
  }

  lemma ThreadPending(c: Config, s: State, a: Action)
    requires Enabled(s, a) && IsThreadStep(a) && !(a.Arrive? && s.queuedBytes + a.size <= MAX_CAPTURE_BYTES)
    ensures var s' := Next(c, s, a);
            s'.queuedBytes + Pending(s'.threads[a.t]) <= s.queuedBytes + Pending(s.threads[a.t])
    ensures Pending(Next(c, s, a).threads[a.t]) == 0
  {}

  lemma StepKeepsBound(c: Config, s: State, a: Action)
    requires Enabled(s, a) && Bounded(s)
    ensures Bounded(Next(c, s, a))
  {
    hide Total;
    OneThreadMoves(c, s, a);
    var s' := Next(c, s, a);
    if IsThreadStep(a) {
      TotalUpdate(s.threads, Pending, a.t, s'.threads[a.t]);
      if a.Arrive? && s.queuedBytes + a.size <= MAX_CAPTURE_BYTES {
        PendingBound(s.threads, a.t);
      } else {
        hide Next, Enabled;
        ThreadPending(c, s, a);
      }
    }
  }

  /** How often `e` was consumed, or dropped after its bytes were added. */
  function Settled(s: State, e: Exchange): nat { Occ(s.consumed, e) + Occ(s.refused, e) + Occ(s.evicted, e) }

  /** What was released is what was settled, or is about to be counted. */
  ghost predicate ReleasedExact(s: State) {
    forall e :: Occ(s.released, e) == Total(s.threads, FreedOf(e)) + Settled(s, e)
  }

  ghost predicate KeepsReleased(c: Config, s: State, a: Action, e: Exchange)
    requires Enabled(s, a)
  {
    var s' := Next(c, s, a);
    if IsThreadStep(a) then
      Freed(s'.threads[a.t], e) + Settled(s', e) - Occ(s'.released, e) == Freed(s.threads[a.t], e) + Settled(s, e) - Occ(s.released, e)
    else Settled(s', e) - Occ(s'.released, e) == Settled(s, e) - Occ(s.released, e)
  }

  lemma SilentReleased(c: Config, s: State, a: Action, e: Exchange)
    requires Enabled(s, a) && !a.ReleaseVictim? && !a.ReleaseOwn? && !a.Release? && !IsCount(a)
    ensures KeepsReleased(c, s, a, e)
  {
    hide Occ, One;
  }

  lemma CountReleased(c: Config, s: State, a: Action, e: Exchange)
    requires Enabled(s, a) && IsCount(a)
    ensures KeepsReleased(c, s, a, e)
  {
    hide Occ, One;
    match a
    case CountVictim(t) => OccAppend(s.evicted, s.threads[t].victim, e);
    case CountOwn(t) => OccAppend(s.refused, s.threads[t].ex, e);
    case _ =>
  }

  lemma FreeReleased(c: Config, s: State, a: Action, e: Exchange)
    requires Enabled(s, a) && (a.ReleaseVictim? || a.ReleaseOwn? || a.Release?)
    ensures KeepsReleased(c, s, a, e)
  {
    hide Occ, One;
    match a
    case ReleaseVictim(t) => OccAppend(s.released, s.threads[t].victim, e);
    case ReleaseOwn(t) => OccAppend(s.released, s.threads[t].ex, e);
    case Release =>
      OccAppend(s.consumed, s.consumer.value, e);
      OccAppend(s.released, s.consumer.value, e);
    case _ =>
  }

  lemma StepReleased(c: Config, s: State, a: Action, e: Exchange)
    requires Enabled(s, a)
    ensures KeepsReleased(c, s, a, e)
  {
    hide Enabled, KeepsReleased;
    if IsCount(a) { CountReleased(c, s, a, e); }
    else if a.ReleaseVictim? || a.ReleaseOwn? || a.Release? { FreeReleased(c, s, a, e); }
    else { SilentReleased(c, s, a, e); }
  }

  lemma StepKeepsReleased(c: Config, s: State, a: Action)
    requires Enabled(s, a) && ReleasedExact(s)
    ensures ReleasedExact(Next(c, s, a))
  {
    OneThreadMoves(c, s, a);
    hide Next, Settled, Enabled, Total, Occ, Freed;
    var s' := Next(c, s, a);
    forall e ensures Occ(s'.released, e) == Total(s'.threads, FreedOf(e)) + Settled(s', e) {
      assert Occ(s.released, e) == Total(s.threads, FreedOf(e)) + Settled(s, e);
      StepReleased(c, s, a, e);
      if IsThreadStep(a) { TotalUpdate(s.threads, FreedOf(e), a.t, s'.threads[a.t]); }
    }
  }

  /** The ids in order of arrival, the drop counters, the queue's history and the closed flag. */
  ghost predicate Tidy(c: Config, s: State) {
    |s.threads| == c.threads && Counted(s) && InOrder(c, s) && OpenWhileUsed(s)
  }

  ghost predicate Counted(s: State) {
    && s.capturesDropped + s.webhooksDropped == |s.rejected| + |s.refused| + |s.evicted|
    && (forall i | 0 <= i < |s.arrived| :: s.arrived[i].id == i)
  }

  ghost predicate InOrder(c: Config, s: State) {
    && |s.queue| <= c.capacity
    && s.sent == s.taken + s.queue && s.capturesQueued == |s.sent|
  }

  ghost predicate OpenWhileUsed(s: State) {
    forall t | 0 <= t < |s.threads| :: WillUseChannel(s.threads[t]) ==> !s.closed
  }

  predicate WillUseChannel(pc: Pc) { pc.Sending? || pc.Evicting? || pc.Holding? || pc.Counting? || pc.Resending? }

  lemma StepKeepsCounted(c: Config, s: State, a: Action)
    requires Enabled(s, a) && Counted(s)
    ensures Counted(Next(c, s, a))
  {}

  lemma StepKeepsOrder(c: Config, s: State, a: Action)
    requires Enabled(s, a) && InOrder(c, s)
    ensures InOrder(c, Next(c, s, a))
  {
    if a.Receive? || (a.Evict? && s.queue != []) {
      assert s.taken + [s.queue[0]] + s.queue[1..] == s.taken + s.queue;
    }
    if IsSend(a) { assert s.taken + (s.queue + [s.threads[a.t].ex]) == s.taken + s.queue + [s.threads[a.t].ex]; }
  }

  lemma StepKeepsOpen(c: Config, s: State, a: Action)
    requires Enabled(s, a) && OpenWhileUsed(s)
    ensures OpenWhileUsed(Next(c, s, a))
  {
    OneThreadMoves(c, s, a);
  }

  lemma StepKeepsTidy(c: Config, s: State, a: Action)
    requires Enabled(s, a) && Tidy(c, s)
    ensures Tidy(c, Next(c, s, a))
  {
    OneThreadMoves(c, s, a);
    hide Next, Enabled, Counted, InOrder, OpenWhileUsed;
    StepKeepsCounted(c, s, a);
    StepKeepsOrder(c, s, a);
    StepKeepsOpen(c, s, a);
  }

  ghost predicate Inv(c: Config, s: State) {
    Conserved(s) && BytesExact(s) && Bounded(s) && ReleasedExact(s) && Tidy(c, s)
  }

  lemma InitInv(c: Config)
    requires c.threads > 0
    ensures Inv(c, Init(c))
  {
    AllIdle(c.threads, Charged);
    AllIdle(c.threads, Pending);
    forall e ensures Places(Init(c), e) == 0 && Total(Init(c).threads, FreedOf(e)) == 0 {
      AllIdle(c.threads, HeldOf(e));
      AllIdle(c.threads, FreedOf(e));
    }
  }

  lemma {:induction false} AllIdle(n: nat, f: Pc -> nat)
    requires f(Idle) == 0
    ensures Total(seq(n, _ => Idle), f) == 0
  {
    if n > 0 {
      AllIdle(n - 1, f);
      assert seq(n, _ => Idle)[1..] == seq(n - 1, _ => Idle);
    }
  }

  lemma {:induction false} RunKeepsInv(c: Config, s: State, actions: seq<Action>, s': State)
    requires Inv(c, s) && Runs(c, s, actions, s')
    ensures Inv(c, s')
    decreases |actions|
  {
    if actions != [] {
      hide Next, Enabled, Conserved, BytesExact, Bounded, ReleasedExact, Tidy;
      var a := actions[0];
      StepConserves(c, s, a);
      StepKeepsBytes(c, s, a);
      StepKeepsBound(c, s, a);
      StepKeepsReleased(c, s, a);
      StepKeepsTidy(c, s, a);
      RunKeepsInv(c, Next(c, s, a), actions[1..], s');
    }
  }

  lemma ReachableInv(c: Config, s: State)
    requires c.threads > 0 && Reachable(c, s)
    ensures Inv(c, s)
  {
    hide Inv, Runs;
    var actions :| Runs(c, Init(c), actions, s);
    InitInv(c);
    RunKeepsInv(c, Init(c), actions, s);
  }

  // ---- What holds in every reachable state ----

  lemma {:induction false} OccBefore(q: seq<Exchange>, e: Exchange, from: nat)
    requires forall i | 0 <= i < |q| :: q[i].id == from + i
    ensures Occ(q, e) == if from <= e.id < from + |q| && q[e.id - from] == e then 1 else 0
  {
    if q != [] { OccBefore(q[1..], e, from + 1); }
  }

  /** Each exchange that arrived is in exactly one place; no other is anywhere. */
  lemma ExactlyOnePlace(c: Config, s: State, e: Exchange)
    requires c.threads > 0 && Reachable(c, s)
    ensures Places(s, e) == if e in s.arrived then 1 else 0
  {
    hide Reachable;
    ReachableInv(c, s);
    hide Inv, Conserved, Tidy, Places;
    IdsInOrder(c, s);
    OccBefore(s.arrived, e, 0);
    PlacesAre(c, s, e);
    if e in s.arrived {
      var i :| 0 <= i < |s.arrived| && s.arrived[i] == e;
      assert e.id == i;
    }
  }

  lemma IdsInOrder(c: Config, s: State)
    requires Inv(c, s)
    ensures forall i | 0 <= i < |s.arrived| :: s.arrived[i].id == i
  {}

  lemma PlacesAre(c: Config, s: State, e: Exchange)
    requires Inv(c, s)
    ensures Places(s, e) == Occ(s.arrived, e)
    ensures Occ(s.released, e) == Total(s.threads, FreedOf(e)) + Settled(s, e)
  {}

  lemma {:induction false} FreedAreHeld(ts: seq<Pc>, e: Exchange)
    ensures Total(ts, FreedOf(e)) <= Total(ts, HeldOf(e))
  {
    if ts != [] { FreedAreHeld(ts[1..], e); }
  }

  /** No exchange is released twice, by whatever interleaving. */
  lemma ReleasedAtMostOnce(c: Config, s: State, e: Exchange)
    requires c.threads > 0 && Reachable(c, s)
    ensures Occ(s.released, e) <= 1
  {
    ExactlyOnePlace(c, s, e);
    ReachableInv(c, s);
    PlacesAre(c, s, e);
    FreedAreHeld(s.threads, e);
  }

  /** The byte counter is exact and bounded, and the channel is used only while open. */
  lemma ByteBound(c: Config, s: State)
    requires c.threads > 0 && Reachable(c, s)
    ensures s.queuedBytes == Total(s.threads, Charged) + Bytes(s.queue) + (if s.consumer.Some? then s.consumer.value.size else 0)
    ensures 0 <= s.queuedBytes <= MAX_CAPTURE_BYTES + (c.threads - 1) * MAX_EXCHANGE_BYTES
    ensures forall a | Enabled(s, a) && (a.Send? || a.Resend? || a.Evict?) :: !s.closed
    ensures s.sent == s.taken + s.queue && |s.queue| <= c.capacity
  {
    hide Reachable;
    ReachableInv(c, s);
  }

  ghost predicate Quiet(s: State) {
    && (forall t | 0 <= t < |s.threads| :: s.threads[t].Idle?)
    && s.queue == [] && s.consumer.None?
  }

  lemma {:induction false} IdleTotal(ts: seq<Pc>, f: Pc -> nat)
    requires f(Idle) == 0 && forall t | 0 <= t < |ts| :: ts[t].Idle?
    ensures Total(ts, f) == 0
  {
    if ts != [] { IdleTotal(ts[1..], f); }
  }

  lemma {:induction false} OccCounts(q: seq<Exchange>, e: Exchange)
    ensures Occ(q, e) == multiset(q)[e]
  {
    if q != [] {
      assert q == [q[0]] + q[1..];
      OccCounts(q[1..], e);
    }
  }

  function Dropped(s: State): seq<Exchange> { s.rejected + s.refused + s.evicted }

  /** Once everything has drained, no bytes are charged, and every arrival was consumed or
      counted as a drop by one of the two counters. */
  lemma NothingLost(c: Config, s: State)
    requires c.threads > 0 && Reachable(c, s) && Quiet(s)
    ensures s.queuedBytes == 0
    ensures multiset(s.arrived) == multiset(s.consumed + Dropped(s))
    ensures |s.arrived| == |s.consumed| + s.capturesDropped + s.webhooksDropped
  {
    hide Reachable;
    ReachableInv(c, s);
    IdleTotal(s.threads, Charged);
    var all := s.consumed + Dropped(s);
    forall e ensures multiset(s.arrived)[e] == multiset(all)[e] {
      QuietPlaces(c, s, e);
    }
    assert multiset(s.arrived) == multiset(all);
    assert |s.arrived| == |multiset(s.arrived)| == |multiset(all)| == |all|;
  }

  lemma QuietPlaces(c: Config, s: State, e: Exchange)
    requires Inv(c, s) && Quiet(s)
    ensures multiset(s.arrived)[e] == multiset(s.consumed + Dropped(s))[e]
  {
    hide Inv, Occ;
    PlacesAre(c, s, e);
    IdleTotal(s.threads, HeldOf(e));
    OccCounts(s.arrived, e);
    OccCounts(s.consumed, e);
    OccCounts(s.rejected, e);
    OccCounts(s.refused, e);
    OccCounts(s.evicted, e);
    NoOcc(e);
  }

  lemma NoOcc(e: Exchange)
    ensures Occ([], e) == 0
  {}

  // ---- The bound is reached ----

  lemma {:induction false} RunsAppend(c: Config, s: State, actions: seq<Action>, s': State, a: Action)
    requires Runs(c, s, actions, s') && Enabled(s', a)
    ensures Runs(c, s, actions + [a], Next(c, s', a))
    decreases |actions|
  {
    hide Next, Enabled;
    var all := actions + [a];
    if actions == [] {
      assert all[0] == a && all[1..] == [];
      assert Runs(c, Next(c, s', a), [], Next(c, s', a));
    } else {
      RunsAppend(c, Next(c, s, actions[0]), actions[1..], s', a);
      assert all[0] == actions[0] && all[1..] == actions[1..] + [a];
    }
  }

  lemma ReachNext(c: Config, s: State, a: Action)
    requires Reachable(c, s) && Enabled(s, a)
    ensures Reachable(c, Next(c, s, a))
  {
    hide Next, Enabled, Runs;
    var actions :| Runs(c, Init(c), actions, s);
    RunsAppend(c, Init(c), actions, s, a);
  }

  /** A state with `n` full-sized exchanges queued and every thread idle. */
  ghost predicate Filled(c: Config, s: State, n: nat) {
    && Reachable(c, s) && s.threads == seq(c.threads, _ => Idle) && !s.closed
    && |s.queue| == n && s.queuedBytes == n * MAX_EXCHANGE_BYTES
  }

  lemma {:induction false} Fill(c: Config, n: nat) returns (s: State)
    requires c.threads > 0 && n <= c.capacity && n < 128
    ensures Filled(c, s, n)
  {
    if n == 0 {
      s := Init(c);
      assert Runs(c, s, [], s);
    } else {
      s := Fill(c, n - 1);
      s := SendOne(c, s, n - 1);
    }
  }

  lemma SendOne(c: Config, s0: State, n: nat) returns (s: State)
    requires c.threads > 0 && n < c.capacity && n < 127 && Filled(c, s0, n)
    ensures Filled(c, s, n + 1)
  {
    hide Reachable;
    s := s0;
    ReachNext(c, s, Arrive(0, MAX_EXCHANGE_BYTES, false));
    s := Next(c, s, Arrive(0, MAX_EXCHANGE_BYTES, false));
    ReachNext(c, s, AddBytes(0));
    s := Next(c, s, AddBytes(0));
    ReachNext(c, s, TakeLock(0));
    s := Next(c, s, TakeLock(0));
    ReachNext(c, s, TestClosed(0));
    s := Next(c, s, TestClosed(0));
    ReachNext(c, s, Send(0));
    s := Next(c, s, Send(0));
    ReachNext(c, s, Unlock(0));
    s := Next(c, s, Unlock(0));
    assert s.threads == s0.threads;
  }

  /** The first `k` threads have passed their check; none has added its bytes. */
  ghost predicate CheckedUpTo(c: Config, s: State, k: nat) {
    && Reachable(c, s) && |s.threads| == c.threads && s.queuedBytes == 127 * MAX_EXCHANGE_BYTES
    && forall t | 0 <= t < c.threads ::
         if t < k then s.threads[t].Checked? && s.threads[t].ex.size == MAX_EXCHANGE_BYTES else s.threads[t].Idle?
  }

  lemma {:induction false} CheckAll(c: Config, k: nat) returns (s: State)
    requires c.threads > 0 && c.capacity >= 127 && k <= c.threads
    ensures CheckedUpTo(c, s, k)
  {
    hide Reachable;
    if k == 0 {
      s := Fill(c, 127);
    } else {
      s := CheckAll(c, k - 1);
      var a := Arrive(k - 1, MAX_EXCHANGE_BYTES, false);
      ReachNext(c, s, a);
      s := Next(c, s, a);
    }
  }

  ghost predicate AddedUpTo(c: Config, s: State, k: nat) {
    && Reachable(c, s) && |s.threads| == c.threads && s.queuedBytes == (127 + k) * MAX_EXCHANGE_BYTES
    && forall t | k <= t < c.threads :: s.threads[t].Checked? && s.threads[t].ex.size == MAX_EXCHANGE_BYTES
  }

  lemma {:induction false} AddAll(c: Config, k: nat) returns (s: State)
    requires c.threads > 0 && c.capacity >= 127 && k <= c.threads
    ensures AddedUpTo(c, s, k)
  {
    hide Reachable;
    if k == 0 {
      s := CheckAll(c, c.threads);
    } else {
      s := AddAll(c, k - 1);
      ReachNext(c, s, AddBytes(k - 1));
      s := Next(c, s, AddBytes(k - 1));
    }
  }

  /** The bound cannot be lowered: with the check apart from the addition, T threads do
      reach the limit plus one exchange for each of the other T - 1. */
  lemma BoundReached(c: Config) returns (s: State)
    requires c.threads > 0 && c.capacity >= 127
    ensures Reachable(c, s)
    ensures s.queuedBytes == MAX_CAPTURE_BYTES + (c.threads - 1) * MAX_EXCHANGE_BYTES
  {
    hide Reachable;
    s := AddAll(c, c.threads);
  }

  // ---- What the two drop counters count ----

  function Inbound(q: seq<Exchange>): nat { if q == [] then 0 else Inbound(Front(q)) + if Last(q).inbound then 1 else 0 }

  /** How many exchanges of the other kind those of one kind have evicted. */
  function Crossed(evicted: seq<Exchange>, evictors: seq<Exchange>, inbound: bool): nat
    requires |evicted| == |evictors|
  {
    if evicted == [] then 0
    else
      Crossed(Front(evicted), Front(evictors), inbound)
      + if Last(evictors).inbound == inbound && Last(evicted).inbound != inbound then 1 else 0
  }

  ghost predicate KindsCounted(s: State) {
    && |s.evictors| == |s.evicted|
    && s.webhooksDropped == Inbound(s.rejected) + Inbound(s.refused) + Inbound(s.evictors)
  }

  lemma InboundSnoc(q: seq<Exchange>, e: Exchange)
    ensures Inbound(q + [e]) == Inbound(q) + if e.inbound then 1 else 0
  {}

  lemma StepCountsKinds(c: Config, s: State, a: Action)
    requires Enabled(s, a) && KindsCounted(s)
    ensures KindsCounted(Next(c, s, a))
  {
    hide Inbound;
    match a
    case CountRejected(t) => InboundSnoc(s.rejected, s.threads[t].ex);
    case CountVictim(t) => InboundSnoc(s.evictors, s.threads[t].ex);
    case CountOwn(t) => InboundSnoc(s.refused, s.threads[t].ex);
    case _ =>
  }

  lemma {:induction false} RunCountsKinds(c: Config, s: State, actions: seq<Action>, s': State)
    requires KindsCounted(s) && Runs(c, s, actions, s')
    ensures KindsCounted(s')
    decreases |actions|
  {
    if actions != [] {
      hide Next, Enabled, KindsCounted;
      StepCountsKinds(c, s, actions[0]);
      RunCountsKinds(c, Next(c, s, actions[0]), actions[1..], s');
    }
  }

  lemma {:induction false} CrossedBalance(evicted: seq<Exchange>, evictors: seq<Exchange>)
    requires |evicted| == |evictors|
    ensures Inbound(evictors) + Crossed(evicted, evictors, false) == Inbound(evicted) + Crossed(evicted, evictors, true)
  {
    if evicted != [] { CrossedBalance(Front(evicted), Front(evictors)); }
  }

  lemma {:induction false} InboundAppend(p: seq<Exchange>, q: seq<Exchange>)
    ensures Inbound(p + q) == Inbound(p) + Inbound(q)
  {
    if q == [] {
      assert p + q == p;
    } else {
      InboundAppend(p, Front(q));
      assert Front(p + q) == p + Front(q);
    }
  }

  /** In every reachable state the webhook counter is off by the captures that webhooks evicted,
      less the webhooks that captures evicted, and the other counter by as much the other way.
      So the counters tell the kinds apart exactly when the two numbers agree. */
  lemma CountersByKind(c: Config, s: State)
    requires c.threads > 0 && Reachable(c, s)
    ensures |s.evicted| == |s.evictors|
    ensures var ours, theirs := Crossed(s.evicted, s.evictors, true), Crossed(s.evicted, s.evictors, false);
            && s.webhooksDropped - Inbound(Dropped(s)) == ours - theirs
            && s.capturesDropped - (|Dropped(s)| - Inbound(Dropped(s))) == theirs - ours
            && (s.webhooksDropped == Inbound(Dropped(s)) <==> ours == theirs)
  {
    hide Runs;
    var actions :| Runs(c, Init(c), actions, s);
    RunCountsKinds(c, Init(c), actions, s);
    CrossedBalance(s.evicted, s.evictors);
    InboundAppend(s.rejected, s.refused);
    InboundAppend(s.rejected + s.refused, s.evicted);
    hide Reachable, Inbound, Crossed;
    ReachableInv(c, s);
  }

  /** The exchange a thread is sending, and the one it has evicted. */
  predicate PcKind(pc: Pc, inbound: bool) {
    && (!pc.Idle? && !pc.Leaving? ==> pc.ex.inbound == inbound)
    && (pc.Holding? || pc.Counting? ==> pc.victim.inbound == inbound)
  }

  predicate OfKind(q: seq<Exchange>, inbound: bool) { forall i | 0 <= i < |q| :: q[i].inbound == inbound }

  ghost predicate AllOfKind(s: State, inbound: bool) {
    && (forall t | 0 <= t < |s.threads| :: PcKind(s.threads[t], inbound))
    && OfKind(s.queue, inbound) && OfKind(s.evicted, inbound) && OfKind(s.evictors, inbound)
  }

  /** The kind of what a step takes in: that of the arrival, or of what its thread holds. */
  lemma ThreadKind(c: Config, s: State, a: Action, inbound: bool)
    requires Enabled(s, a) && IsThreadStep(a) && PcKind(s.threads[a.t], inbound) && OfKind(s.queue, inbound)
    requires a.Arrive? ==> a.inbound == inbound
    ensures PcKind(Next(c, s, a).threads[a.t], inbound)
  {}

  lemma KindSnoc(q: seq<Exchange>, e: Exchange, inbound: bool)
    requires OfKind(q, inbound) && e.inbound == inbound
    ensures OfKind(q + [e], inbound)
  {}

  lemma KindTail(q: seq<Exchange>, inbound: bool)
    requires q != [] && OfKind(q, inbound)
    ensures OfKind(q[1..], inbound)
  {}

  lemma QueuesKind(c: Config, s: State, a: Action, inbound: bool)
    requires Enabled(s, a) && (IsThreadStep(a) ==> PcKind(s.threads[a.t], inbound))
    requires OfKind(s.queue, inbound) && OfKind(s.evicted, inbound) && OfKind(s.evictors, inbound)
    ensures var s' := Next(c, s, a);
            OfKind(s'.queue, inbound) && OfKind(s'.evicted, inbound) && OfKind(s'.evictors, inbound)
  {
    hide OfKind;
    if IsSend(a) { KindSnoc(s.queue, s.threads[a.t].ex, inbound); }
    else if a.Receive? || a.Evict? {
      if s.queue != [] { KindTail(s.queue, inbound); }
    } else if a.CountVictim? {
      KindSnoc(s.evicted, s.threads[a.t].victim, inbound);
      KindSnoc(s.evictors, s.threads[a.t].ex, inbound);
    }
  }

  lemma StepKeepsKind(c: Config, s: State, a: Action, inbound: bool)
    requires Enabled(s, a) && AllOfKind(s, inbound) && (a.Arrive? ==> a.inbound == inbound)
    ensures AllOfKind(Next(c, s, a), inbound)
  {
    OneThreadMoves(c, s, a);
    hide Next, PcKind, OfKind;
    if IsThreadStep(a) {
      InThreads(s, a);
      ThreadKind(c, s, a, inbound);
    }
    QueuesKind(c, s, a, inbound);
  }

  lemma InThreads(s: State, a: Action)
    requires Enabled(s, a) && IsThreadStep(a)
    ensures IsThread(s, a.t)
  {}

  lemma ArrivedGrows(c: Config, s: State, a: Action)
    requires Enabled(s, a)
    ensures s.arrived <= Next(c, s, a).arrived
    ensures a.Arrive? ==> Next(c, s, a).arrived == s.arrived + [Exchange(|s.arrived|, a.size, a.inbound)]
  {}

  lemma {:induction false} ArrivedStay(c: Config, s: State, actions: seq<Action>, s': State)
    requires Runs(c, s, actions, s')
    ensures s.arrived <= s'.arrived
    decreases |actions|
  {
    if actions != [] {
      hide Enabled, Next;
      ArrivedGrows(c, s, actions[0]);
      ArrivedStay(c, Next(c, s, actions[0]), actions[1..], s');
    }
  }

  lemma {:induction false} RunKeepsKind(c: Config, s: State, actions: seq<Action>, s': State, inbound: bool)
    requires Runs(c, s, actions, s') && AllOfKind(s, inbound) && OfKind(s'.arrived, inbound)
    ensures AllOfKind(s', inbound)
    decreases |actions|
  {
    if actions != [] {
      hide Enabled, AllOfKind, Next;
      var a, s1 := actions[0], Next(c, s, actions[0]);
      ArrivedGrows(c, s, a);
      ArrivedStay(c, s1, actions[1..], s');
      if a.Arrive? {
        assert s1.arrived[|s.arrived|] == s'.arrived[|s.arrived|];
        assert a.inbound == inbound;
      }
      StepKeepsKind(c, s, a, inbound);
      RunKeepsKind(c, s1, actions[1..], s', inbound);
    }
  }

  lemma {:induction false} NoneCrossed(evicted: seq<Exchange>, evictors: seq<Exchange>, kind: bool, inbound: bool)
    requires |evicted| == |evictors| && OfKind(evicted, inbound) && OfKind(evictors, inbound)
    ensures Crossed(evicted, evictors, kind) == 0
  {
    if evicted != [] { NoneCrossed(Front(evicted), Front(evictors), kind, inbound); }
  }

  /** Where all traffic is of one kind the counters are right. */
  lemma OneKindCounted(c: Config, s: State, inbound: bool)
    requires c.threads > 0 && Reachable(c, s) && OfKind(s.arrived, inbound)
    ensures s.webhooksDropped == Inbound(Dropped(s)) && s.capturesDropped == |Dropped(s)| - Inbound(Dropped(s))
  {
    CountersByKind(c, s);
    hide Runs, Inbound, Dropped;
    var actions :| Runs(c, Init(c), actions, s);
    RunKeepsKind(c, Init(c), actions, s, inbound);
    NoneCrossed(s.evicted, s.evictors, true, inbound);
    NoneCrossed(s.evicted, s.evictors, false, inbound);
  }

  /** The per-kind counters do not count drops per kind: a webhook delivery that evicts a
      captured exchange counts it as a dropped webhook. */
  lemma EvictionCountedByEvictor() returns (c: Config, s: State)
    ensures c.threads > 0 && c.capacity > 0 && Reachable(c, s)
    ensures s.webhooksDropped == 1 && s.capturesDropped == 0
    ensures |Dropped(s)| == 1 && !Dropped(s)[0].inbound
  {
    hide Reachable, Runs;
    c := Config(1, 1);
    s := FirstQueued(c);
    s := WebhookEvicts(c, s);
  }

  /** One captured exchange fills the queue of one. */
  ghost predicate OneQueued(c: Config, s: State) {
    && Reachable(c, s) && s.threads == [Idle] && !s.closed && s.queuedBytes == 0
    && |s.queue| == 1 && !s.queue[0].inbound && Dropped(s) == [] && s.capturesDropped == s.webhooksDropped == 0
  }

  lemma FirstQueued(c: Config) returns (s: State)
    requires c == Config(1, 1)
    ensures OneQueued(c, s)
  {
    hide Reachable;
    s := Init(c);
    assert Reachable(c, s) by { InitReachable(c); }
    assert s.threads == [Idle];
    s := Follow(c, s, Arrive(0, 0, false));
    s := Follow(c, s, AddBytes(0));
    s := Follow(c, s, TakeLock(0));
    s := Follow(c, s, TestClosed(0));
    s := Follow(c, s, Send(0));
    s := Follow(c, s, Unlock(0));
  }

  lemma InitReachable(c: Config)
    ensures Reachable(c, Init(c))
  {
    assert Runs(c, Init(c), [], Init(c));
  }

  lemma Follow(c: Config, s: State, a: Action) returns (s': State)
    requires Reachable(c, s) && Enabled(s, a)
    ensures Reachable(c, s') && s' == Next(c, s, a)
  {
    s' := Next(c, s, a);
    ReachNext(c, s, a);
  }

  lemma WebhookEvicts(c: Config, s0: State) returns (s: State)
    requires c == Config(1, 1) && OneQueued(c, s0)
    ensures Reachable(c, s)
    ensures s.webhooksDropped == 1 && s.capturesDropped == 0
    ensures |Dropped(s)| == 1 && !Dropped(s)[0].inbound
  {
    hide Reachable;
    s := Follow(c, s0, Arrive(0, 0, true));
    s := Follow(c, s, AddBytes(0));
    s := Follow(c, s, TakeLock(0));
    s := Follow(c, s, TestClosed(0));
    s := Follow(c, s, Send(0));
    s := Follow(c, s, Evict(0));
    s := Follow(c, s, ReleaseVictim(0));
    s := Follow(c, s, CountVictim(0));
  }

  // ---- Why an exchange is at most two captured bodies ----

  /** A body copied up to a limit. `seen` is everything the caller wrote; `late` says that an
      empty write reached a full buffer. */
  class CappedBuffer {
    var data: seq<bv8>
    var truncated: bool
    ghost var seen: seq<bv8>
    ghost var late: bool

    ghost predicate Valid()
      reads this
    {
      && data == (if |seen| <= MAX_CAPTURED_BODY then seen else seen[..MAX_CAPTURED_BODY])
      && truncated == (|seen| > MAX_CAPTURED_BODY || late)
    }

    constructor ()
      ensures Valid() && seen == [] && !late
    {
      data, truncated, seen, late := [], false, [], false;
    }

    /** Every write succeeds in full for the caller; what is kept is the first part of all
        that was written, and the flag says exactly whether something was left out, save that
        an empty write to a full buffer raises it as well. */
    method Write(p: seq<bv8>) returns (n: nat)
      requires Valid()
      modifies this
      ensures Valid() && seen == old(seen) + p && n == |p|
      ensures late == (old(late) || (p == [] && |old(seen)| >= MAX_CAPTURED_BODY))
    {
      var room := MAX_CAPTURED_BODY - |data|;
      late := late || (p == [] && |seen| >= MAX_CAPTURED_BODY);
      seen := seen + p;
      if room <= 0 {
        truncated := true;
        return |p|;
      }
      if |p| > room {
        truncated := true;
        data := data + p[..room];
        return |p|;
      }
      data := data + p;
      return |p|;
    }
  }
}
