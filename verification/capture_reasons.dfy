/** Why the capture queue lets an exchange go: over every run, each rejection, eviction and refusal
    goes back to a step that found the byte limit passed, the queue full, or the server closed. */
module CaptureReasons {
  import opened CaptureQueue
  import opened Text

  /** A run with the states it goes through. */
  ghost predicate Run(c: Config, states: seq<State>, actions: seq<Action>) {
    && |states| == |actions| + 1 && states[0] == Init(c)
    && forall k | 0 <= k < |actions| :: Enabled(states[k], actions[k]) && states[k + 1] == Next(c, states[k], actions[k])
  }

  // ---- The steps ----

  /** The arrival of `e` found no room under the byte limit. */
  predicate OverLimit(s: State, a: Action, e: Exchange) {
    a.Arrive? && e == Exchange(|s.arrived|, a.size, a.inbound) && s.queuedBytes + e.size > MAX_CAPTURE_BYTES
  }

  predicate Does(s: State, t: nat, pc: Pc) { IsThread(s, t) && s.threads[t] == pc }

  /** The first send of `e` found the queue full. */
  predicate FirstSendFull(c: Config, s: State, a: Action, e: Exchange) {
    a.Send? && Does(s, a.t, Sending(e)) && |s.queue| >= c.capacity
  }

  /** For `e` the oldest exchange, `victim`, was taken out. */
  predicate TookOldest(s: State, a: Action, e: Exchange, victim: Exchange) {
    a.Evict? && Does(s, a.t, Evicting(e)) && s.queue != [] && s.queue[0] == victim
  }

  /** The second send of `e` found the queue full, or `e` came to a closed server. */
  predicate Unwanted(c: Config, s: State, a: Action, e: Exchange) {
    || (a.Resend? && Does(s, a.t, Resending(e)) && |s.queue| >= c.capacity)
    || (a.TestClosed? && Does(s, a.t, Locked(e)) && s.closed)
  }

  /** A send of `e` found room. */
  predicate FoundRoom(c: Config, s: State, a: Action, e: Exchange) {
    ((a.Send? && Does(s, a.t, Sending(e))) || (a.Resend? && Does(s, a.t, Resending(e)))) && |s.queue| < c.capacity
  }

  // ---- Among the steps of a run ----

  ghost predicate WasOver(c: Config, states: seq<State>, actions: seq<Action>, e: Exchange)
    requires |states| == |actions| + 1
  {
    exists k | 0 <= k < |actions| :: OverLimit(states[k], actions[k], e)
  }

  ghost predicate WasFull(c: Config, states: seq<State>, actions: seq<Action>, e: Exchange)
    requires |states| == |actions| + 1
  {
    exists k | 0 <= k < |actions| :: FirstSendFull(c, states[k], actions[k], e)
  }

  ghost predicate WasTaken(c: Config, states: seq<State>, actions: seq<Action>, e: Exchange, victim: Exchange)
    requires |states| == |actions| + 1
  {
    exists k | 0 <= k < |actions| :: TookOldest(states[k], actions[k], e, victim)
  }

  ghost predicate WasUnwanted(c: Config, states: seq<State>, actions: seq<Action>, e: Exchange)
    requires |states| == |actions| + 1
  {
    exists k | 0 <= k < |actions| :: Unwanted(c, states[k], actions[k], e)
  }

  ghost predicate HadRoom(c: Config, states: seq<State>, actions: seq<Action>, e: Exchange)
    requires |states| == |actions| + 1
  {
    exists k | 0 <= k < |actions| :: FoundRoom(c, states[k], actions[k], e)
  }

  /** The reason a thread stands where it does. */
  ghost predicate PcReason(c: Config, states: seq<State>, actions: seq<Action>, pc: Pc)
    requires |states| == |actions| + 1
  {
    match pc
    case Rejecting(e) => WasOver(c, states, actions, e)
    case Evicting(e) => WasFull(c, states, actions, e)
    case Holding(e, victim) => WasFull(c, states, actions, e) && WasTaken(c, states, actions, e, victim)
    case Counting(e, victim) => WasFull(c, states, actions, e) && WasTaken(c, states, actions, e, victim)
    case Resending(e) => WasFull(c, states, actions, e)
    case Refusing(e) => WasUnwanted(c, states, actions, e)
    case Refused(e) => WasUnwanted(c, states, actions, e)
    case _ => true
  }

  ghost predicate ThreadsReason(c: Config, states: seq<State>, actions: seq<Action>, s: State)
    requires |states| == |actions| + 1
  {
    forall t | 0 <= t < |s.threads| :: PcReason(c, states, actions, s.threads[t])
  }

  ghost predicate TalliesReason(c: Config, states: seq<State>, actions: seq<Action>, s: State)
    requires |states| == |actions| + 1
  {
    && (forall i | 0 <= i < |s.rejected| :: WasOver(c, states, actions, s.rejected[i]))
    && (forall i | 0 <= i < |s.refused| :: WasUnwanted(c, states, actions, s.refused[i]))
    && |s.evicted| == |s.evictors|
    && (forall i | 0 <= i < |s.evicted| ::
          WasFull(c, states, actions, s.evictors[i]) && WasTaken(c, states, actions, s.evictors[i], s.evicted[i]))
    && (forall i | 0 <= i < |s.sent| :: HadRoom(c, states, actions, s.sent[i]))
  }

  // ---- One more step ----

  /** Reasons found stay found. */
  lemma Longer(c: Config, states: seq<State>, actions: seq<Action>, s: State, a: Action)
    requires |states| == |actions| + 1
    ensures forall e :: WasOver(c, states, actions, e) ==> WasOver(c, states + [s], actions + [a], e)
    ensures forall e :: WasFull(c, states, actions, e) ==> WasFull(c, states + [s], actions + [a], e)
    ensures forall e, v :: WasTaken(c, states, actions, e, v) ==> WasTaken(c, states + [s], actions + [a], e, v)
    ensures forall e :: WasUnwanted(c, states, actions, e) ==> WasUnwanted(c, states + [s], actions + [a], e)
    ensures forall e :: HadRoom(c, states, actions, e) ==> HadRoom(c, states + [s], actions + [a], e)
  {
    hide OverLimit, FirstSendFull, TookOldest, Unwanted, FoundRoom;
    var ss, as' := states + [s], actions + [a];
    assert forall k | 0 <= k < |actions| :: ss[k] == states[k] && as'[k] == actions[k];
  }

  /** What the last step found. */
  lemma Newest(c: Config, states: seq<State>, actions: seq<Action>, s: State, a: Action)
    requires |states| == |actions| + 1
    ensures var ss, as', now := states + [s], actions + [a], states[|actions|];
            && (forall e :: OverLimit(now, a, e) ==> WasOver(c, ss, as', e))
            && (forall e :: FirstSendFull(c, now, a, e) ==> WasFull(c, ss, as', e))
            && (forall e, v :: TookOldest(now, a, e, v) ==> WasTaken(c, ss, as', e, v))
            && (forall e :: Unwanted(c, now, a, e) ==> WasUnwanted(c, ss, as', e))
            && (forall e :: FoundRoom(c, now, a, e) ==> HadRoom(c, ss, as', e))
  {
    hide OverLimit, FirstSendFull, TookOldest, Unwanted, FoundRoom;
    var ss, as', k := states + [s], actions + [a], |actions|;
    assert ss[k] == states[k] && as'[k] == a;
  }

  /** A thread that found a reason just now, or had one, has it in its new place. */
  lemma MovesWithReason(c: Config, s: State, a: Action)
    requires Enabled(s, a) && IsThreadStep(a)
    ensures IsThread(s, a.t) && |Next(c, s, a).threads| == |s.threads|
    ensures var pc, pc' := s.threads[a.t], Next(c, s, a).threads[a.t];
            && (pc'.Rejecting? ==> OverLimit(s, a, pc'.ex))
            && (pc'.Evicting? ==> FirstSendFull(c, s, a, pc'.ex))
            && (pc'.Holding? ==> pc == Evicting(pc'.ex) && TookOldest(s, a, pc'.ex, pc'.victim))
            && (pc'.Counting? ==> pc == Holding(pc'.ex, pc'.victim))
            && (pc'.Resending? ==> (pc.Evicting? || pc.Counting?) && pc'.ex == pc.ex)
            && (pc'.Refusing? ==> Unwanted(c, s, a, pc'.ex))
            && (pc'.Refused? ==> pc == Refusing(pc'.ex))
  {
  }

  /** The new place of the thread that moves has its reason. */
  lemma MoverReason(c: Config, states: seq<State>, actions: seq<Action>, a: Action)
    requires |states| == |actions| + 1
    requires var s := states[|actions|]; Enabled(s, a) && IsThreadStep(a) && ThreadsReason(c, states, actions, s)
    ensures var s := states[|actions|];
            IsThread(s, a.t) && PcReason(c, states + [Next(c, s, a)], actions + [a], Next(c, s, a).threads[a.t])
  {
    hide Next, Enabled, WasOver, WasFull, WasTaken, WasUnwanted, HadRoom, OverLimit, FirstSendFull, TookOldest, Unwanted, FoundRoom;
    var s := states[|actions|];
    MovesWithReason(c, s, a);
    Longer(c, states, actions, Next(c, s, a), a);
    Newest(c, states, actions, Next(c, s, a), a);
    assert PcReason(c, states, actions, s.threads[a.t]);
  }

  lemma OtherReason(c: Config, states: seq<State>, actions: seq<Action>, s: State, a: Action, pc: Pc)
    requires |states| == |actions| + 1 && PcReason(c, states, actions, pc)
    ensures PcReason(c, states + [s], actions + [a], pc)
  {
    Longer(c, states, actions, s, a);
    hide WasOver, WasFull, WasTaken, WasUnwanted, HadRoom;
  }

  lemma StepThreads(c: Config, states: seq<State>, actions: seq<Action>, a: Action)
    requires |states| == |actions| + 1
    requires var s := states[|actions|]; Enabled(s, a) && ThreadsReason(c, states, actions, s)
    ensures var s' := Next(c, states[|actions|], a); ThreadsReason(c, states + [s'], actions + [a], s')
  {
    var s := states[|actions|];
    OneThreadMoves(c, s, a);
    if IsThreadStep(a) { MoverReason(c, states, actions, a); }
    hide Next, PcReason, Enabled;
    var s' := Next(c, s, a);
    forall t | 0 <= t < |s'.threads| ensures PcReason(c, states + [s'], actions + [a], s'.threads[t]) {
      if !IsThreadStep(a) || t != a.t { OtherReason(c, states, actions, s', a, s.threads[t]); }
    }
  }

  /** What one step adds to the tallies. */
  lemma TalliesGrow(c: Config, s: State, a: Action)
    requires Enabled(s, a)
    ensures var s' := Next(c, s, a);
            && s'.rejected == s.rejected + (if a.CountRejected? then [s.threads[a.t].ex] else [])
            && s'.refused == s.refused + (if a.CountOwn? then [s.threads[a.t].ex] else [])
            && s'.evicted == s.evicted + (if a.CountVictim? then [s.threads[a.t].victim] else [])
            && s'.evictors == s.evictors + (if a.CountVictim? then [s.threads[a.t].ex] else [])
  {}

  lemma SentGrows(c: Config, s: State, a: Action)
    requires Enabled(s, a)
    ensures Next(c, s, a).sent
            == s.sent + if (a.Send? || a.Resend?) && |s.queue| < c.capacity then [s.threads[a.t].ex] else []
  {}

  /** What one step adds has its reason. */
  lemma AdditionReasons(c: Config, states: seq<State>, actions: seq<Action>, s': State, a: Action)
    requires |states| == |actions| + 1
    requires var s := states[|actions|]; Enabled(s, a) && ThreadsReason(c, states, actions, s)
    ensures var s, ss, as' := states[|actions|], states + [s'], actions + [a];
            && (a.CountRejected? ==> WasOver(c, ss, as', s.threads[a.t].ex))
            && (a.CountOwn? ==> WasUnwanted(c, ss, as', s.threads[a.t].ex))
            && (a.CountVictim? ==> WasFull(c, ss, as', s.threads[a.t].ex)
                                   && WasTaken(c, ss, as', s.threads[a.t].ex, s.threads[a.t].victim))
            && ((a.Send? || a.Resend?) && |s.queue| < c.capacity ==> HadRoom(c, ss, as', s.threads[a.t].ex))
  {
    hide WasOver, WasFull, WasTaken, WasUnwanted, HadRoom;
    var s := states[|actions|];
    Longer(c, states, actions, s', a);
    Newest(c, states, actions, s', a);
    if a.CountRejected? || a.CountOwn? || a.CountVictim? { assert PcReason(c, states, actions, s.threads[a.t]); }
    if a.Send? || a.Resend? { assert |s.queue| < c.capacity ==> FoundRoom(c, s, a, s.threads[a.t].ex); }
  }

  lemma OldTallies(c: Config, states: seq<State>, actions: seq<Action>, s: State, s': State, a: Action)
    requires |states| == |actions| + 1 && TalliesReason(c, states, actions, s)
    ensures TalliesReason(c, states + [s'], actions + [a], s)
  {
    hide WasOver, WasFull, WasTaken, WasUnwanted, HadRoom;
    Longer(c, states, actions, s', a);
  }

  lemma StepTallies(c: Config, states: seq<State>, actions: seq<Action>, a: Action)
    requires |states| == |actions| + 1
    requires var s := states[|actions|]; Enabled(s, a) && ThreadsReason(c, states, actions, s) && TalliesReason(c, states, actions, s)
    ensures var s' := Next(c, states[|actions|], a); TalliesReason(c, states + [s'], actions + [a], s')
  {
    hide Next, Enabled, ThreadsReason, WasOver, WasFull, WasTaken, WasUnwanted, HadRoom;
    var s := states[|actions|];
    TalliesGrow(c, s, a);
    SentGrows(c, s, a);
    OldTallies(c, states, actions, s, Next(c, s, a), a);
    AdditionReasons(c, states, actions, Next(c, s, a), a);
  }

  lemma {:induction false} RunReasons(c: Config, states: seq<State>, actions: seq<Action>)
    requires Run(c, states, actions)
    ensures var s := states[|actions|]; ThreadsReason(c, states, actions, s) && TalliesReason(c, states, actions, s)
    decreases |actions|
  {
    if actions != [] {
      hide Next, Enabled, ThreadsReason, TalliesReason;
      var before, past, a := states[..|actions|], Front(actions), Last(actions);
      assert Run(c, before, past);
      RunReasons(c, before, past);
      StepThreads(c, before, past, a);
      StepTallies(c, before, past, a);
      assert states == before + [states[|actions|]] && actions == past + [a];
      assert states[|actions|] == Next(c, before[|past|], a);
    }
  }

  lemma NextFits(c: Config, s: State, a: Action)
    requires Enabled(s, a) && |s.queue| <= c.capacity
    ensures |Next(c, s, a).queue| <= c.capacity
  {}

  /** A full queue holds as many as its capacity, never more. */
  lemma {:induction false} QueueFits(c: Config, states: seq<State>, actions: seq<Action>, k: nat)
    requires Run(c, states, actions) && k <= |actions|
    ensures |states[k].queue| <= c.capacity
    decreases k
  {
    if k > 0 {
      hide Next, Enabled;
      QueueFits(c, states, actions, k - 1);
      NextFits(c, states[k - 1], actions[k - 1]);
    }
  }

  /** In every run: what was rejected found the byte limit passed; what was evicted was the oldest
      in the queue when another exchange, whose send had found the queue full, needed room; what
      was refused found the queue full again or the server closed; and what was sent found room. */
  lemma EveryDropHasItsReason(c: Config, states: seq<State>, actions: seq<Action>, e: Exchange)
    requires Run(c, states, actions)
    ensures var s := states[|actions|];
            && (e in s.rejected ==> WasOver(c, states, actions, e))
            && (e in s.evicted ==> exists other :: WasFull(c, states, actions, other) && WasTaken(c, states, actions, other, e))
            && (e in s.refused ==> WasUnwanted(c, states, actions, e))
            && (e in s.sent ==> HadRoom(c, states, actions, e))
    ensures forall k | 0 <= k <= |actions| :: |states[k].queue| <= c.capacity
  {
    RunReasons(c, states, actions);
    forall k | 0 <= k <= |actions| ensures |states[k].queue| <= c.capacity { QueueFits(c, states, actions, k); }
    hide WasOver, WasFull, WasTaken, WasUnwanted, HadRoom;
    var s := states[|actions|];
    if e in s.evicted {
      var i :| 0 <= i < |s.evicted| && s.evicted[i] == e;
      assert WasFull(c, states, actions, s.evictors[i]) && WasTaken(c, states, actions, s.evictors[i], e);
    }
  }

  // ---- One producer, and no close ----

  predicate InHand(pc: Pc) {
    pc.Checked? || pc.Added? || pc.Locked? || pc.Sending? || pc.Evicting? || pc.Holding? || pc.Counting? || pc.Resending?
  }

  /** What a thread holds that has yet to be sent. */
  function Unsent(pc: Pc): seq<Exchange> { if InHand(pc) then [pc.ex] else [] }

  function RejectedBy(s: State): seq<Exchange>
    requires |s.threads| == 1
  {
    s.rejected + if s.threads[0].Rejecting? then [s.threads[0].ex] else []
  }

  function Kept(arrived: seq<Exchange>, rejected: seq<Exchange>): seq<Exchange> {
    if arrived == [] then []
    else Kept(Front(arrived), rejected) + if Last(arrived) in rejected then [] else [Last(arrived)]
  }

  /** Nothing is refused, room made stays, and what was sent and is in hand is all that was kept. */
  ghost predicate Alone(c: Config, s: State) {
    && |s.threads| == 1 && !s.closed && s.refused == [] && !s.threads[0].Refusing? && !s.threads[0].Refused?
    && (s.threads[0].Holding? || s.threads[0].Counting? || s.threads[0].Resending? ==> |s.queue| < c.capacity)
    && |s.queue| <= c.capacity
    && (forall i | 0 <= i < |s.arrived| :: s.arrived[i].id == i)
    && (forall i | 0 <= i < |RejectedBy(s)| :: RejectedBy(s)[i].id < |s.arrived|)
    && s.sent + Unsent(s.threads[0]) == Kept(s.arrived, RejectedBy(s))
  }

  /** An exchange not there to be rejected changes nothing. */
  lemma {:induction false} KeptWithout(arrived: seq<Exchange>, rejected: seq<Exchange>, e: Exchange)
    requires e !in arrived
    ensures Kept(arrived, rejected + [e]) == Kept(arrived, rejected)
  {
    if arrived != [] { KeptWithout(Front(arrived), rejected, e); }
  }

  /** What an arrival at the one thread does. */
  lemma Arrives(c: Config, s: State, a: Action, e: Exchange)
    requires |s.threads| == 1 && Enabled(s, a) && a.Arrive? && e == Exchange(|s.arrived|, a.size, a.inbound)
    ensures s.threads == [Idle]
    ensures var s' := Next(c, s, a);
            s' == s.(arrived := s.arrived + [e], threads := s'.threads) && (s'.threads == [Rejecting(e)] || s'.threads == [Checked(e)])
  {
    assert a.t == 0 && s.threads == [Idle];
  }

  lemma AloneArrives(c: Config, s: State, a: Action)
    requires Alone(c, s) && Enabled(s, a) && a.Arrive?
    ensures Alone(c, Next(c, s, a))
  {
    hide Next, Enabled, Kept;
    var s', e := Next(c, s, a), Exchange(|s.arrived|, a.size, a.inbound);
    Arrives(c, s, a, e);
    assert RejectedBy(s) == s.rejected;
    assert e !in s.arrived && e !in s.rejected;
    KeptWithout(s.arrived, s.rejected, e);
    OneKept(s.arrived, s.rejected, e);
    OneKept(s.arrived, s.rejected + [e], e);
    assert RejectedBy(s') == s.rejected + if s'.threads[0].Rejecting? then [e] else [];
    assert s.rejected + [] == s.rejected && s.sent + [] == s.sent;
  }

  lemma OneKept(arrived: seq<Exchange>, rejected: seq<Exchange>, e: Exchange)
    ensures Kept(arrived + [e], rejected) == Kept(arrived, rejected) + if e in rejected then [] else [e]
  {
    assert Front(arrived + [e]) == arrived;
  }

  lemma AloneSteps(c: Config, s: State, a: Action)
    requires Alone(c, s) && Enabled(s, a) && !a.Arrive? && !a.Close? && c.capacity >= 1
    ensures Alone(c, Next(c, s, a))
  {
    hide Kept;
    var s' := Next(c, s, a);
    assert s'.arrived == s.arrived;
    assert RejectedBy(s') == RejectedBy(s);
    assert s'.sent + Unsent(s'.threads[0]) == s.sent + Unsent(s.threads[0]);
  }

  lemma {:induction false} RunAlone(c: Config, states: seq<State>, actions: seq<Action>)
    requires Run(c, states, actions) && c.threads == 1 && c.capacity >= 1 && forall k | 0 <= k < |actions| :: !actions[k].Close?
    ensures Alone(c, states[|actions|])
    decreases |actions|
  {
    if actions != [] {
      hide Next, Enabled, Alone;
      var before, past, a := states[..|actions|], Front(actions), Last(actions);
      assert Run(c, before, past);
      RunAlone(c, before, past);
      assert states[|actions|] == Next(c, states[|past|], a);
      if a.Arrive? { AloneArrives(c, states[|past|], a); } else { AloneSteps(c, states[|past|], a); }
    } else {
      assert Init(c).threads == [Idle];
    }
  }

  /** With one producer, room for one exchange and no close, none is ever refused: between calls
      what was sent is exactly what arrived under the byte limit, in order, so that only older
      exchanges give way and the newest stays. */
  lemma NewestStays(c: Config, states: seq<State>, actions: seq<Action>)
    requires Run(c, states, actions) && c.threads == 1 && c.capacity >= 1 && forall k | 0 <= k < |actions| :: !actions[k].Close?
    ensures var s := states[|actions|];
            && s.refused == [] && |s.threads| == 1
            && (s.threads[0].Idle? ==> s.sent == Kept(s.arrived, s.rejected))
  {
    RunAlone(c, states, actions);
    hide Kept;
    var s := states[|actions|];
    assert s.sent + [] == s.sent && s.rejected + [] == s.rejected;
  }

  /** Every reachable state comes at the end of such a run. */
  lemma ReachableRuns(c: Config, s: State) returns (states: seq<State>, actions: seq<Action>)
    requires Reachable(c, s)
    ensures Run(c, states, actions) && states[|actions|] == s
  {
    hide Next, Enabled, Runs;
    actions :| Runs(c, Init(c), actions, s);
    states := States(c, Init(c), actions, s);
  }

  lemma {:induction false} States(c: Config, s: State, actions: seq<Action>, s': State) returns (states: seq<State>)
    requires Runs(c, s, actions, s')
    ensures |states| == |actions| + 1 && states[0] == s && states[|actions|] == s'
    ensures forall k | 0 <= k < |actions| :: Enabled(states[k], actions[k]) && states[k + 1] == Next(c, states[k], actions[k])
    decreases |actions|
  {
    hide Next, Enabled;
    if actions == [] {
      states := [s];
    } else {
      var rest := States(c, Next(c, s, actions[0]), actions[1..], s');
      states := [s] + rest;
      forall k | 0 <= k < |actions| ensures Enabled(states[k], actions[k]) && states[k + 1] == Next(c, states[k], actions[k]) {
        if k > 0 { assert states[k] == rest[k - 1] && states[k + 1] == rest[k] && actions[1..][k - 1] == actions[k]; }
      }
    }
  }
}
