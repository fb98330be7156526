/** The alerter: per-fingerprint latches over tumbling windows, eviction at saturation, and
    an hourly delivery ceiling. Times are integers in nanoseconds. */
module Alerting {
  import opened Text

  const SECOND: int := 1_000_000_000
  const HOUR: int := 3600 * SECOND
  const MAX_TRACKED_FINGERPRINTS: nat := 10000
  const MAX_DELIVERIES_PER_HOUR: nat := 60

  datatype Options = Options(minOccurrences: nat, window: int, maxTracked: nat, floor: nat)

  predicate ValidOptions(o: Options) { o.minOccurrences > 0 && o.window > 0 && o.maxTracked > 0 }

  /** `fpState`, without the event it renders. */
  datatype FpState = FpState(
    first: int, last: int, occurrences: nat,
    windowStart: int, windowCount: nat,
    alerted: bool, acked: bool)

  type States = map<string, FpState>

  /** `victim` is the state thrown out to make room, where the event needed room. */
  datatype Event =
    | Report(fp: string, now: int, victim: Option<string>)
    | ReportFirst(fp: string, now: int, victim: Option<string>)
    | Ack(fp: string, now: int)

  predicate Evictable(st: FpState) { st.acked || st.alerted }

  /** Acknowledged states go first, then the one reported longest ago. */
  predicate Beats(a: FpState, b: FpState) { (a.acked && !b.acked) || (a.acked == b.acked && a.last < b.last) }

  predicate Best(m: States, fp: string) {
    fp in m && Evictable(m[fp]) && forall x | x in m && Evictable(m[x]) :: !Beats(m[x], m[fp])
  }

  /** What `evictOneLocked` may choose, whatever order the map is walked in. The empty string
      doubles as "no victim yet", so a state filed under it is never chosen and hides others. */
  predicate MayEvict(m: States, v: Option<string>) {
    if "" in m && Evictable(m[""]) then v.Some? ==> v.value != "" && v.value in m && Evictable(m[v.value])
    else if v.Some? then Best(m, v.value)
    else forall fp | fp in m :: !Evictable(m[fp])
  }

  /** Who may go, the empty fingerprint aside: nobody if none is acknowledged or alerted; otherwise
      an acknowledged one if there is any, else an alerted one, and of those the one reported
      longest ago. */
  ghost predicate VictimIs(m: States, v: Option<string>) {
    match v
    case None => forall x | x in m :: !m[x].acked && !m[x].alerted
    case Some(fp) =>
      && fp in m && (m[fp].acked || m[fp].alerted)
      && (forall x | x in m && m[x].acked :: m[fp].acked && m[fp].last <= m[x].last)
      && (!m[fp].acked ==> forall x | x in m && (m[x].acked || m[x].alerted) :: m[fp].last <= m[x].last)
  }

  lemma MayEvictIs(m: States, v: Option<string>)
    ensures "" in m && (m[""].acked || m[""].alerted) ==> (MayEvict(m, v) <==> (v.Some? ==> v.value != "" && v.value in m && (m[v.value].acked || m[v.value].alerted)))
    ensures !("" in m && (m[""].acked || m[""].alerted)) ==> (MayEvict(m, v) <==> VictimIs(m, v))
  {}

  function Fresh(now: int): FpState { FpState(now, now, 0, now, 0, false, false) }

  function Seen(st: FpState, now: int): FpState { st.(last := now, occurrences := st.occurrences + 1) }

  /** A report counts in its window; a window outlived starts again. */
  function Windowed(o: Options, st: FpState, now: int): FpState {
    if now - st.windowStart > o.window then st.(windowStart := now, windowCount := 1)
    else st.(windowCount := st.windowCount + 1)
  }

  predicate Due(o: Options, st: FpState) { !st.alerted && !st.acked && st.windowCount >= o.minOccurrences }

  function Counted(o: Options, st: FpState, now: int): FpState { Windowed(o, Seen(st, now), now) }

  predicate NeedsRoom(o: Options, m: States, fp: string) { fp !in m && |m| >= o.maxTracked }

  /** Saturated: no room and nothing to throw out, so the event is not tracked. */
  predicate Refused(o: Options, m: States, e: Event) { !e.Ack? && NeedsRoom(o, m, e.fp) && e.victim.None? }

  predicate Allowed(o: Options, m: States, e: Event) {
    e.Ack? || if NeedsRoom(o, m, e.fp) then MayEvict(m, e.victim) else e.victim.None?
  }

  function Found(m: States, e: Event): FpState { if e.fp in m then m[e.fp] else Fresh(e.now) }

  predicate Emits(o: Options, m: States, e: Event) {
    !e.Ack? && !Refused(o, m, e)
    && if e.Report? then Due(o, Counted(o, Found(m, e), e.now)) else !Found(m, e).alerted && !Found(m, e).acked
  }

  /** The state of the event's fingerprint afterwards. */
  function Updated(o: Options, m: States, e: Event): FpState
    requires !e.Ack?
  {
    var st := if e.Report? then Counted(o, Found(m, e), e.now) else Seen(Found(m, e), e.now);
    st.(alerted := st.alerted || Emits(o, m, e))
  }

  function Room(m: States, v: Option<string>): States { if v.Some? then m - {v.value} else m }

  function Track(o: Options, m: States, e: Event): States {
    if Refused(o, m, e) then m
    else if e.Ack? then if e.fp in m then m[e.fp := m[e.fp].(acked := true)] else m
    else Room(m, e.victim)[e.fp := Updated(o, m, e)]
  }

  // ---- Runs ----

  function After(o: Options, m: States, es: seq<Event>): States {
    if es == [] then m else Track(o, After(o, m, Front(es)), Last(es))
  }

  ghost predicate Runs(o: Options, m: States, es: seq<Event>) {
    es == [] || (Runs(o, m, Front(es)) && Allowed(o, After(o, m, Front(es)), Last(es)))
  }

  /** The clock never goes back. */
  ghost predicate Monotone(es: seq<Event>) { forall i, j | 0 <= i <= j < |es| :: es[i].now <= es[j].now }

  predicate ReportOf(e: Event, fp: string, lo: int, hi: int) { e.Report? && e.fp == fp && lo <= e.now <= hi }

  /** Reports of `fp` from `lo` up to `hi`. */
  function Reports(es: seq<Event>, fp: string, lo: int, hi: int): nat {
    if es == [] then 0 else Reports(Front(es), fp, lo, hi) + if ReportOf(Last(es), fp, lo, hi) then 1 else 0
  }

  // ---- An alert needs enough reports within one window ----

  /** A fingerprint's counter is backed by that many reports since its window began. */
  ghost predicate Backed(m: States, es: seq<Event>, clock: int, hi: int) {
    forall fp | fp in m :: m[fp].windowStart <= clock && m[fp].windowCount <= Reports(es, fp, m[fp].windowStart, hi)
  }

  lemma {:induction false} RunsBacked(o: Options, es: seq<Event>, clock: int, hi: int)
    requires Runs(o, map[], es) && Monotone(es) && clock <= hi && forall i | 0 <= i < |es| :: es[i].now <= clock
    ensures Backed(After(o, map[], es), es, clock, hi)
  {
    if es != [] {
      RunsBacked(o, Front(es), Last(es).now, hi);
      StepBacked(o, After(o, map[], Front(es)), es, hi);
    }
  }

  lemma StepBacked(o: Options, m: States, es: seq<Event>, hi: int)
    requires es != [] && Backed(m, Front(es), Last(es).now, hi) && Last(es).now <= hi && Allowed(o, m, Last(es))
    ensures Backed(Track(o, m, Last(es)), es, Last(es).now, hi)
  {
    hide Allowed;
    var e := Last(es);
    var m' := Track(o, m, e);
    forall fp | fp in m'
      ensures m'[fp].windowStart <= e.now && m'[fp].windowCount <= Reports(es, fp, m'[fp].windowStart, hi)
    {
      if !Refused(o, m, e) && !e.Ack? && fp == e.fp {
        UpdatedBacked(o, m, es, hi);
      } else {
        assert fp in m && m'[fp].windowStart == m[fp].windowStart && m'[fp].windowCount == m[fp].windowCount by {
          hide Updated, Emits;
        }
      }
    }
  }

  lemma UpdatedBacked(o: Options, m: States, es: seq<Event>, hi: int)
    requires es != [] && Backed(m, Front(es), Last(es).now, hi) && Last(es).now <= hi && !Last(es).Ack?
    ensures var st := Updated(o, m, Last(es));
            st.windowStart <= Last(es).now && st.windowCount <= Reports(es, Last(es).fp, st.windowStart, hi)
  {}

  /** Reports within the window of the last event. */
  function Recent(o: Options, es: seq<Event>): nat
    requires es != []
  {
    Reports(es, Last(es).fp, Last(es).now - o.window, Last(es).now)
  }

  /** `Report` alerts only on at least `minOccurrences` reports of that fingerprint, this one
      included, no further apart than the window. */
  lemma AlertNeedsReports(o: Options, es: seq<Event>)
    requires es != [] && Monotone(es) && Runs(o, map[], es)
    requires Last(es).Report? && Emits(o, After(o, map[], Front(es)), Last(es)) && o.window >= 0
    ensures Recent(o, es) >= o.minOccurrences
  {
    hide Emits, Updated, Allowed, Track, Reports;
    var e := Last(es);
    var m := After(o, map[], Front(es));
    RunsBacked(o, Front(es), e.now, e.now);
    UpdatedBacked(o, m, es, e.now);
    WindowWithin(o, m, e);
    ReportsMore(es, e.fp, Updated(o, m, e).windowStart, e.now - o.window, e.now);
  }

  lemma WindowWithin(o: Options, m: States, e: Event)
    requires e.Report? && o.window >= 0 && Emits(o, m, e)
    ensures Updated(o, m, e).windowStart >= e.now - o.window && Updated(o, m, e).windowCount >= o.minOccurrences
  {}

  lemma {:induction false} ReportsMore(es: seq<Event>, fp: string, lo: int, lower: int, hi: int)
    requires lower <= lo
    ensures Reports(es, fp, lo, hi) <= Reports(es, fp, lower, hi)
  {
    if es != [] { ReportsMore(Front(es), fp, lo, lower, hi); }
  }

  // ---- Enough reports within one window do alert ----

  /** Tracked, not acknowledged and not alerted means counting: at least the first report of
      the window, and fewer than would have alerted. */
  ghost predicate Inv(o: Options, m: States) {
    forall fp | fp in m && !Evictable(m[fp]) :: 1 <= m[fp].windowCount < o.minOccurrences
  }

  lemma StepKeepsInv(o: Options, m: States, e: Event)
    requires ValidOptions(o) && Inv(o, m) && Allowed(o, m, e)
    ensures Inv(o, Track(o, m, e))
  {
    hide Allowed;
  }

  lemma {:induction false} RunKeepsInv(o: Options, m: States, es: seq<Event>)
    requires ValidOptions(o) && Inv(o, m) && Runs(o, m, es)
    ensures Inv(o, After(o, m, es))
  {
    if es != [] {
      RunKeepsInv(o, m, Front(es));
      StepKeepsInv(o, After(o, m, Front(es)), Last(es));
    }
  }

  /** Some event of the run raised an alert for `fp`. */
  ghost predicate Raised(o: Options, m: States, es: seq<Event>, fp: string) {
    es != [] && (Raised(o, m, Front(es), fp) || (Last(es).fp == fp && Emits(o, After(o, m, Front(es)), Last(es))))
  }

  ghost predicate WithinWindow(o: Options, es: seq<Event>, start: int) {
    forall i | 0 <= i < |es| :: start <= es[i].now <= start + o.window
  }

  ghost predicate NoAck(es: seq<Event>, fp: string) {
    forall i | 0 <= i < |es| :: es[i].fp == fp ==> !es[i].Ack?
  }

  /** Still counting: the reports so far are all in the window found at the start, or in one
      begun since, and the one before it took fewer than would alert. */
  ghost predicate Counting(o: Options, m: States, fp: string, start: int, seen: nat) {
    && fp in m && !Evictable(m[fp])
    && (seen < m[fp].windowCount || (start <= m[fp].windowStart && seen < o.minOccurrences - 1 + m[fp].windowCount))
  }

  /** An unalerted state cannot be thrown out. */
  lemma OthersKeep(o: Options, m: States, e: Event, fp: string)
    requires fp in m && !Evictable(m[fp]) && Allowed(o, m, e) && e.fp != fp
    ensures fp in Track(o, m, e) && Track(o, m, e)[fp] == m[fp]
  {
    hide Updated, Emits;
  }

  lemma StepCounts(o: Options, m: States, e: Event, fp: string, start: int, seen: nat)
    requires Inv(o, m) && Allowed(o, m, e) && Counting(o, m, fp, start, seen)
    requires start <= e.now <= start + o.window && e.fp == fp && !e.Ack? && !Emits(o, m, e)
    ensures Counting(o, Track(o, m, e), fp, start, seen + if e.Report? then 1 else 0)
  {}

  lemma {:induction false} QuietRun(o: Options, m: States, es: seq<Event>, fp: string, start: int)
    requires ValidOptions(o) && Inv(o, m) && Runs(o, m, es) && fp in m && !Evictable(m[fp])
    requires WithinWindow(o, es, start) && NoAck(es, fp) && !Raised(o, m, es, fp)
    ensures Counting(o, After(o, m, es), fp, start, Reports(es, fp, start, start + o.window))
  {
    if es != [] {
      hide Track, Emits, Allowed, Inv;
      var before := After(o, m, Front(es));
      QuietRun(o, m, Front(es), fp, start);
      RunKeepsInv(o, m, Front(es));
      if Last(es).fp == fp {
        StepCounts(o, before, Last(es), fp, start, Reports(Front(es), fp, start, start + o.window));
      } else {
        OthersKeep(o, before, Last(es), fp);
      }
    }
  }

  /** A tracked fingerprint that nobody acknowledges has alerted, or alerts now, once
      2k - 2 reports of it (one if k is 1) come within one window, whatever else is reported,
      acknowledged or thrown out meanwhile. */
  lemma EnoughReportsAlert(o: Options, m: States, es: seq<Event>, fp: string, start: int)
    requires ValidOptions(o) && Inv(o, m) && Runs(o, m, es) && fp in m && !m[fp].acked
    requires WithinWindow(o, es, start) && NoAck(es, fp)
    requires Reports(es, fp, start, start + o.window) >= 2 * o.minOccurrences - 2
    ensures m[fp].alerted || Raised(o, m, es, fp)
  {
    if !m[fp].alerted && !Raised(o, m, es, fp) {
      QuietRun(o, m, es, fp, start);
      RunKeepsInv(o, m, es);
    }
  }

  /** Without eviction of `fp` the latch holds: it ends alerted. */
  lemma {:induction false} LatchHolds(o: Options, m: States, es: seq<Event>, fp: string)
    requires Runs(o, m, es) && forall i | 0 <= i < |es| :: es[i].Ack? || es[i].victim != Some(fp)
    requires (fp in m && m[fp].alerted) || Raised(o, m, es, fp)
    ensures fp in After(o, m, es) && After(o, m, es)[fp].alerted
  {
    if es != [] {
      hide Emits;
      var before := After(o, m, Front(es));
      var e := Last(es);
      assert e == es[|es| - 1];
      if !(e.fp == fp && Emits(o, before, e)) || (fp in m && m[fp].alerted) {
        LatchHolds(o, m, Front(es), fp);
      } else {
        EmitAlerts(o, before, e);
      }
    }
  }

  lemma EmitAlerts(o: Options, m: States, e: Event)
    requires Emits(o, m, e)
    ensures e.fp in Track(o, m, e) && Track(o, m, e)[e.fp].alerted
    ensures e.fp !in m || !m[e.fp].alerted
  {}

  /** One alert per fingerprint for as long as it is tracked: a second alert takes an eviction. */
  lemma AlertsOnce(o: Options, m: States, es: seq<Event>, fp: string)
    requires es != [] && Runs(o, m, es) && Last(es).fp == fp && Emits(o, After(o, m, Front(es)), Last(es))
    requires Raised(o, m, Front(es), fp)
    ensures exists i | 0 <= i < |es| - 1 :: !es[i].Ack? && es[i].victim == Some(fp)
  {
    if forall i | 0 <= i < |es| - 1 :: es[i].Ack? || es[i].victim != Some(fp) {
      LatchHolds(o, m, Front(es), fp);
      EmitAlerts(o, After(o, m, Front(es)), Last(es));
      assert false;
    }
  }

  // ---- Neither bound can be improved ----

  /** `n` reports of `fp` at one time. */
  function Burst(fp: string, at: int, n: nat): seq<Event> { seq(n, _ => Report(fp, at, None)) }

  /** A run that leaves `fp` counting, `count` reports into a window begun at `start`. */
  ghost predicate Midway(o: Options, es: seq<Event>, fp: string, start: int, count: nat) {
    && Runs(o, map[], es)
    && var m := After(o, map[], es);
       fp in m && !Evictable(m[fp]) && m[fp].windowStart == start && m[fp].windowCount == count
  }

  lemma OneMore(o: Options, es: seq<Event>, e: Event, start: int, count: nat)
    requires Midway(o, es, e.fp, start, count) && e.Report? && e.victim == None && count + 1 < o.minOccurrences
    requires e.now - start <= o.window || 1 < o.minOccurrences
    ensures if e.now - start <= o.window then Midway(o, es + [e], e.fp, start, count + 1)
            else Midway(o, es + [e], e.fp, e.now, 1)
  {}

  lemma {:induction false} More(o: Options, es: seq<Event>, fp: string, start: int, count: nat, at: int, n: nat)
    requires Midway(o, es, fp, start, count) && at - start <= o.window && count + n < o.minOccurrences
    ensures Midway(o, es + Burst(fp, at, n), fp, start, count + n)
  {
    hide Midway, Burst;
    BurstGrows(es, fp, at, n);
    if n > 0 {
      More(o, es, fp, start, count, at, n - 1);
      OneMore(o, es + Burst(fp, at, n - 1), Report(fp, at, None), start, count + n - 1);
    }
  }

  lemma ReportsSnoc(es: seq<Event>, e: Event, fp: string, lo: int, hi: int)
    ensures Reports(es + [e], fp, lo, hi) == Reports(es, fp, lo, hi) + if ReportOf(e, fp, lo, hi) then 1 else 0
  {}

  lemma RunsSnoc(o: Options, m: States, es: seq<Event>, e: Event)
    requires Runs(o, m, es) && Allowed(o, After(o, m, es), e)
    ensures Runs(o, m, es + [e]) && After(o, m, es + [e]) == Track(o, After(o, m, es), e)
  {}

  lemma BurstGrows(es: seq<Event>, fp: string, at: int, n: nat)
    ensures es + Burst(fp, at, 0) == es
    ensures n > 0 ==> es + Burst(fp, at, n) == es + Burst(fp, at, n - 1) + [Report(fp, at, None)]
  {}

  lemma {:induction false} ReportsInBurst(es: seq<Event>, fp: string, at: int, n: nat, lo: int, hi: int)
    requires lo <= at <= hi
    ensures Reports(es + Burst(fp, at, n), fp, lo, hi) == Reports(es, fp, lo, hi) + n
  {
    hide Reports, Burst;
    BurstGrows(es, fp, at, n);
    if n > 0 {
      ReportsInBurst(es, fp, at, n - 1, lo, hi);
      ReportsSnoc(es + Burst(fp, at, n - 1), Report(fp, at, None), fp, lo, hi);
    }
  }

  /** k - 2 reports at the end of one window and k - 1 at the start of the next: 2k - 3 reports
      one nanosecond apart, and no alert. */
  lemma TwoWindowsHide(o: Options, fp: string) returns (es: seq<Event>, start: int)
    requires ValidOptions(o) && o.minOccurrences >= 2
    ensures Runs(o, map[], es) && fp in After(o, map[], es) && !Evictable(After(o, map[], es)[fp])
    ensures Reports(es, fp, start, start + 1) == 2 * o.minOccurrences - 3
  {
    var k := o.minOccurrences;
    start := o.window;
    var first := [Report(fp, 0, None)];
    FirstReport(o, fp, start);
    var late := first + Burst(fp, start, k - 2);
    More(o, first, fp, 0, 1, start, k - 2);
    ReportsInBurst(first, fp, start, k - 2, start, start + 1);
    var again := late + [Report(fp, start + 1, None)];
    NextWindow(o, late, fp, start, k - 1);
    es := again + Burst(fp, start + 1, k - 2);
    More(o, again, fp, start + 1, 1, start + 1, k - 2);
    ReportsInBurst(again, fp, start + 1, k - 2, start, start + 1);
    assert Front(again) == late;
  }

  lemma FirstReport(o: Options, fp: string, start: int)
    requires ValidOptions(o) && o.minOccurrences >= 2 && start > 0
    ensures Midway(o, [Report(fp, 0, None)], fp, 0, 1) && Reports([Report(fp, 0, None)], fp, start, start + 1) == 0
  {}

  lemma NextWindow(o: Options, es: seq<Event>, fp: string, start: int, count: nat)
    requires Midway(o, es, fp, 0, count) && start == o.window && o.minOccurrences >= 2
    ensures Midway(o, es + [Report(fp, start + 1, None)], fp, start + 1, 1)
  {}

  // ---- How many fingerprints may be in play for one alert each ----

  ghost predicate EmitsAt(o: Options, es: seq<Event>, i: nat)
    requires i < |es|
  {
    Emits(o, After(o, map[], es[..i]), es[i])
  }

  ghost predicate Over(es: seq<Event>, fps: set<string>) { forall i | 0 <= i < |es| :: es[i].fp in fps }

  /** In every run over these fingerprints each of them alerts at most once. */
  ghost predicate OneAlertEach(o: Options, fps: set<string>) {
    forall es: seq<Event>, i: nat, j: nat | Runs(o, map[], es) && Over(es, fps) && i < j < |es| && es[i].fp == es[j].fp ::
      !(EmitsAt(o, es, i) && EmitsAt(o, es, j))
  }

  ghost predicate NoVictims(es: seq<Event>) { forall i | 0 <= i < |es| :: es[i].Ack? || es[i].victim.None? }

  /** With room for all fingerprints of a run nothing is thrown out. */
  lemma {:induction false} RoomForAll(o: Options, es: seq<Event>, fps: set<string>)
    requires Runs(o, map[], es) && Over(es, fps) && |fps| <= o.maxTracked
    ensures After(o, map[], es).Keys <= fps && NoVictims(es)
  {
    if es != [] {
      hide Track, Allowed;
      RoomForAll(o, Front(es), fps);
      assert es == Front(es) + [Last(es)] && Last(es).fp in fps;
      RoomForOne(o, After(o, map[], Front(es)), Last(es), fps);
    }
  }

  lemma RoomForOne(o: Options, m: States, e: Event, fps: set<string>)
    requires Allowed(o, m, e) && m.Keys <= fps && e.fp in fps && |fps| <= o.maxTracked
    ensures Track(o, m, e).Keys <= fps && (e.Ack? || e.victim.None?)
  {
    if e.fp !in m { Outnumbered(m.Keys, fps, e.fp); }
    assert |m| == |m.Keys|;
    hide Updated, Emits, MayEvict;
  }

  lemma Outnumbered(keys: set<string>, fps: set<string>, fp: string)
    requires keys <= fps && fp in fps && fp !in keys
    ensures |keys| < |fps|
  {
    Subset(keys, fps - {fp});
  }

  lemma {:induction false} Subset(a: set<string>, b: set<string>)
    requires a <= b
    ensures |a| <= |b|
  {
    if a != {} {
      var x :| x in a;
      Subset(a - {x}, b - {x});
    }
  }

  lemma {:induction false} RaisedBy(o: Options, es: seq<Event>, i: nat)
    requires i < |es| && EmitsAt(o, es, i)
    ensures Raised(o, map[], es, es[i].fp)
  {
    if i < |es| - 1 {
      hide Emits;
      assert Front(es)[..i] == es[..i];
      RaisedBy(o, Front(es), i);
    }
  }

  lemma {:induction false} RunsPrefix(o: Options, m: States, es: seq<Event>, n: nat)
    requires Runs(o, m, es) && n <= |es|
    ensures Runs(o, m, es[..n])
  {
    if n < |es| {
      hide Allowed;
      assert Front(es)[..n] == es[..n];
      RunsPrefix(o, m, Front(es), n);
    } else {
      assert es[..n] == es;
    }
  }

  lemma NotTwice(o: Options, es: seq<Event>, i: nat, fps: set<string>)
    requires Runs(o, map[], es) && Over(es, fps) && |fps| <= o.maxTracked
    requires i < |es| - 1 && EmitsAt(o, es, i) && es[i].fp == Last(es).fp
    ensures !EmitsAt(o, es, |es| - 1)
  {
    hide Emits, Allowed;
    RoomForAll(o, es, fps);
    assert Front(es)[..i] == es[..i];
    RaisedBy(o, Front(es), i);
    hide Runs, Raised, After;
    if EmitsAt(o, es, |es| - 1) {
      AlertsOnce(o, map[], es, es[i].fp);
      assert false;
    }
  }

  /** So each of them alerts at most once. */
  lemma RoomMeansOnce(o: Options, fps: set<string>)
    requires |fps| <= o.maxTracked
    ensures OneAlertEach(o, fps)
  {
    hide Emits, Allowed, Runs, After;
    forall es: seq<Event>, i: nat, j: nat | Runs(o, map[], es) && Over(es, fps) && i < j < |es| && es[i].fp == es[j].fp
      ensures !(EmitsAt(o, es, i) && EmitsAt(o, es, j))
    {
      RunsPrefix(o, map[], es, j + 1);
      assert es[..j + 1][..i] == es[..i] && es[..j + 1][..j] == es[..j];
      if EmitsAt(o, es, i) { NotTwice(o, es[..j + 1], i, fps); }
    }
  }

  // ---- With one fingerprint more there is a run that alerts twice ----

  ghost predicate Listed(fs: seq<string>) {
    (forall i | 0 <= i < |fs| :: fs[i] != "") && forall i, j | 0 <= i < j < |fs| :: fs[i] != fs[j]
  }

  function Slice(fs: seq<string>, lo: nat, hi: nat): set<string>
    requires lo <= hi <= |fs|
  {
    set i | lo <= i < hi :: fs[i]
  }

  /** Just these are tracked; all have alerted, in this order. */
  ghost predicate Holds(m: States, fs: seq<string>, lo: nat, hi: nat)
    requires lo <= hi <= |fs|
  {
    m.Keys == Slice(fs, lo, hi)
    && forall i | lo <= i < hi :: m[fs[i]].last == i && m[fs[i]].alerted && !m[fs[i]].acked
  }

  lemma {:induction false} SliceSize(fs: seq<string>, lo: nat, hi: nat)
    requires Listed(fs) && lo <= hi <= |fs|
    ensures |Slice(fs, lo, hi)| == hi - lo
  {
    if lo < hi {
      SliceSize(fs, lo, hi - 1);
      assert Slice(fs, lo, hi) == Slice(fs, lo, hi - 1) + {fs[hi - 1]};
    }
  }

  lemma HoldsSize(m: States, fs: seq<string>, lo: nat, hi: nat)
    requires Listed(fs) && lo <= hi <= |fs| && Holds(m, fs, lo, hi)
    ensures |m| == hi - lo
  {
    SliceSize(fs, lo, hi);
    assert |m| == |m.Keys|;
  }

  /** One more first report, while there is room. */
  lemma Joins(o: Options, m: States, fs: seq<string>, hi: nat)
    requires Listed(fs) && hi < |fs| && Holds(m, fs, 0, hi) && hi < o.maxTracked
    ensures var e := ReportFirst(fs[hi], hi, None);
            Allowed(o, m, e) && Emits(o, m, e) && Holds(Track(o, m, e), fs, 0, hi + 1)
  {
    HoldsSize(m, fs, 0, hi);
    assert fs[hi] !in m;
    var e := ReportFirst(fs[hi], hi, None);
    assert Allowed(o, m, e) && Emits(o, m, e);
    hide Allowed, Emits;
    assert Track(o, m, e) == m[fs[hi] := Updated(o, m, e)];
    hide Track;
    Added(m, fs, hi, Updated(o, m, e));
  }

  lemma Added(m: States, fs: seq<string>, hi: nat, st: FpState)
    requires Listed(fs) && hi < |fs| && Holds(m, fs, 0, hi) && st.last == hi && st.alerted && !st.acked
    ensures Holds(m[fs[hi] := st], fs, 0, hi + 1)
  {
    assert Slice(fs, 0, hi + 1) == Slice(fs, 0, hi) + {fs[hi]};
  }

  /** Without room the oldest must go. */
  lemma OldestGoes(o: Options, m: States, fs: seq<string>, lo: nat, hi: nat, fp: string, now: int)
    requires Listed(fs) && lo < hi <= |fs| && Holds(m, fs, lo, hi) && hi - lo == o.maxTracked && fp !in m
    ensures var e := ReportFirst(fp, now, Some(fs[lo])); Allowed(o, m, e) && Emits(o, m, e)
  {
    HoldsSize(m, fs, lo, hi);
    assert fs[lo] in m && "" !in m;
    hide Slice;
    assert Best(m, fs[lo]);
  }

  lemma Replaces(o: Options, m: States, fs: seq<string>, lo: nat, hi: nat)
    requires Listed(fs) && lo < hi < |fs| && Holds(m, fs, lo, hi) && hi - lo == o.maxTracked
    ensures var e := ReportFirst(fs[hi], hi, Some(fs[lo])); Holds(Track(o, m, e), fs, lo + 1, hi + 1)
  {
    assert fs[hi] !in m;
    assert Slice(fs, lo + 1, hi + 1) == Slice(fs, lo, hi) - {fs[lo]} + {fs[hi]};
  }

  lemma {:induction false} FillUp(o: Options, fs: seq<string>, n: nat) returns (es: seq<Event>)
    requires Listed(fs) && n <= o.maxTracked && n <= |fs|
    ensures |es| == n && Runs(o, map[], es) && Holds(After(o, map[], es), fs, 0, n)
    ensures forall i | 0 <= i < n :: es[i] == ReportFirst(fs[i], i, None)
  {
    hide *;
    if n == 0 {
      es := [];
      NoneHeld(o, fs);
    } else {
      var before := FillUp(o, fs, n - 1);
      var e := ReportFirst(fs[n - 1], n - 1, None);
      Joins(o, After(o, map[], before), fs, n - 1);
      RunsSnoc(o, map[], before, e);
      es := before + [e];
    }
  }

  lemma NoneHeld(o: Options, fs: seq<string>)
    ensures Runs(o, map[], []) && Holds(After(o, map[], []), fs, 0, 0)
  {}

  lemma FirstEmits(o: Options, es: seq<Event>, fp: string)
    requires ValidOptions(o) && es != [] && es[0] == ReportFirst(fp, 0, None)
    ensures EmitsAt(o, es, 0)
  {
    assert es[..0] == [];
  }

  /** The first fingerprint is thrown out for the last, comes again, and alerts again. */
  lemma AlertsTwice(o: Options, fs: seq<string>) returns (es: seq<Event>)
    requires ValidOptions(o) && Listed(fs) && |fs| == o.maxTracked + 1
    ensures |es| == o.maxTracked + 2 && Runs(o, map[], es) && es[0].fp == es[|es| - 1].fp
    ensures EmitsAt(o, es, 0) && EmitsAt(o, es, |es| - 1)
    ensures forall i | 0 <= i < |es| :: es[i].fp in fs
  {
    hide *;
    var n := o.maxTracked;
    HasRoom(o);
    var full := FillUp(o, fs, n);
    var last, again := ReportFirst(fs[n], n, Some(fs[0])), ReportFirst(fs[0], n + 1, Some(fs[1]));
    var more := full + [last];
    es := more + [again];
    var m := After(o, map[], full);
    NotHeld(m, fs, 0, n, n);
    OldestGoes(o, m, fs, 0, n, fs[n], n);
    Replaces(o, m, fs, 0, n);
    RunsSnoc(o, map[], full, last);
    NotHeld(After(o, map[], more), fs, 1, n + 1, 0);
    OldestGoes(o, After(o, map[], more), fs, 1, n + 1, fs[0], n + 1);
    RunsSnoc(o, map[], more, again);
    FirstEmits(o, es, fs[0]);
    LastEmits(o, more, again);
  }

  lemma HasRoom(o: Options)
    requires ValidOptions(o)
    ensures o.maxTracked > 0
  {}

  lemma LastEmits(o: Options, es: seq<Event>, e: Event)
    requires Emits(o, After(o, map[], es), e)
    ensures EmitsAt(o, es + [e], |es|)
  {
    hide Emits;
    assert (es + [e])[..|es|] == es;
  }

  lemma NotHeld(m: States, fs: seq<string>, lo: nat, hi: nat, i: nat)
    requires Listed(fs) && lo <= hi <= |fs| && Holds(m, fs, lo, hi) && i < |fs| && !(lo <= i < hi)
    ensures fs[i] !in m
  {}

  lemma {:induction false} Listing(fps: set<string>, n: nat) returns (fs: seq<string>)
    requires "" !in fps && n <= |fps|
    ensures |fs| == n && Listed(fs) && forall i | 0 <= i < n :: fs[i] in fps
  {
    if n == 0 {
      fs := [];
    } else {
      var fp :| fp in fps;
      var rest := Listing(fps - {fp}, n - 1);
      fs := [fp] + rest;
    }
  }

  /** One alert per fingerprint, whatever happens, exactly if there is room to track them all. */
  lemma OnceIffRoom(o: Options, fps: set<string>)
    requires ValidOptions(o) && "" !in fps
    ensures OneAlertEach(o, fps) <==> |fps| <= o.maxTracked
  {
    if |fps| <= o.maxTracked {
      RoomMeansOnce(o, fps);
    } else {
      var fs := Listing(fps, o.maxTracked + 1);
      var es := AlertsTwice(o, fs);
      hide Runs, EmitsAt;
      assert Over(es, fps);
      assert es[0].fp == es[|es| - 1].fp && !OneAlertEach(o, fps);
    }
  }

  // ---- What a state remembers of its reports ----

  /** When the reports of `fp` came that were not refused, whichever way they were reported. */
  function Sightings(o: Options, es: seq<Event>, fp: string): seq<int> {
    if es == [] then []
    else
      var e := Last(es);
      Sightings(o, Front(es), fp) + if !e.Ack? && e.fp == fp && !Refused(o, After(o, map[], Front(es)), e) then [e.now] else []
  }

  /** Unless it is evicted, a fingerprint's state counts them all, and has the first and the last. */
  lemma {:induction false} SightingsCounted(o: Options, es: seq<Event>, fp: string)
    requires Runs(o, map[], es) && forall i | 0 <= i < |es| && !es[i].Ack? :: es[i].victim != Some(fp)
    ensures var m, at := After(o, map[], es), Sightings(o, es, fp);
            && (fp in m <==> at != [])
            && (fp in m ==> m[fp].occurrences == |at| && m[fp].first == at[0] && m[fp].last == Last(at))
  {
    if es != [] {
      SightingsCounted(o, Front(es), fp);
      hide Allowed, Windowed, Runs, Emits;
      assert Last(es) == es[|es| - 1];
      StateAfter(o, After(o, map[], Front(es)), Last(es), fp);
    }
  }

  /** What one event makes of a state that is not the one evicted. */
  lemma StateAfter(o: Options, m: States, e: Event, fp: string)
    requires e.Ack? || e.victim != Some(fp)
    ensures var m', seen := Track(o, m, e), !e.Ack? && e.fp == fp && !Refused(o, m, e);
            && (fp in m' <==> fp in m || seen)
            && (seen ==> m'[fp].occurrences == (if fp in m then m[fp].occurrences else 0) + 1 && m'[fp].last == e.now
                         && m'[fp].first == if fp in m then m[fp].first else e.now)
            && (!seen && fp in m ==> m'[fp].occurrences == m[fp].occurrences && m'[fp].first == m[fp].first && m'[fp].last == m[fp].last)
  {
    hide Emits;
  }

  // ---- The delivery ceiling ----

  datatype Window = Window(start: Option<int>, count: nat)

  /** What `emit` hands on: nothing, the alert itself, or the one notice that the ceiling is reached. */
  datatype Message = Silent | Alert | CeilingNotice

  /** A call of `emit`, with the rank of the event's level. */
  datatype Emission = Emission(now: int, rank: nat)

  function Opened(w: Window, now: int): Window {
    if w.start.None? || now - w.start.value > HOUR then Window(Some(now), 0) else w
  }

  function Emitted(floor: nat, w: Window, e: Emission): Window {
    if e.rank < floor then w else Opened(w, e.now).(count := Opened(w, e.now).count + 1)
  }

  function MessageOf(floor: nat, w: Window, e: Emission): Message {
    var n := Emitted(floor, w, e).count;
    if e.rank < floor then Silent
    else if n <= MAX_DELIVERIES_PER_HOUR then Alert
    else if n == MAX_DELIVERIES_PER_HOUR + 1 then CeilingNotice
    else Silent
  }

  function AfterEmits(floor: nat, es: seq<Emission>): Window {
    if es == [] then Window(None, 0) else Emitted(floor, AfterEmits(floor, Front(es)), Last(es))
  }

  function MessageAt(floor: nat, es: seq<Emission>): Message
    requires es != []
  {
    MessageOf(floor, AfterEmits(floor, Front(es)), Last(es))
  }

  /** Alerts delivered from `lo` up to `hi`. */
  function Delivered(floor: nat, es: seq<Emission>, lo: int, hi: int): nat {
    if es == [] then 0
    else Delivered(floor, Front(es), lo, hi) + if MessageAt(floor, es).Alert? && lo <= Last(es).now <= hi then 1 else 0
  }

  ghost predicate Ticking(es: seq<Emission>) { forall i, j | 0 <= i <= j < |es| :: es[i].now <= es[j].now }

  function Passed(w: Window): nat { if w.count <= MAX_DELIVERIES_PER_HOUR then w.count else MAX_DELIVERIES_PER_HOUR }

  /** How many alerts fall in the hour from `t`, by where the open window stands: it started
      before `t`, at `t`, inside the hour, or after it. */
  ghost predicate Ceiling(w: Window, n: nat, t: int) {
    if w.start.None? then n == 0
    else
      var s := w.start.value;
      && w.count >= 1
      && (t > s + HOUR ==> n == 0)
      && (s < t ==> n <= Passed(w) - 1)
      && (s == t ==> n <= Passed(w))
      && (t < s <= t + HOUR ==> n <= MAX_DELIVERIES_PER_HOUR - 1 + Passed(w))
      && n <= 2 * MAX_DELIVERIES_PER_HOUR - 1
  }

  lemma EmitKeepsCeiling(floor: nat, w: Window, e: Emission, n: nat, t: int)
    requires Ceiling(w, n, t) && (w.start.Some? ==> w.start.value <= e.now)
    ensures var n' := n + if MessageOf(floor, w, e).Alert? && t <= e.now <= t + HOUR then 1 else 0;
            Ceiling(Emitted(floor, w, e), n', t)
  {}

  lemma {:induction false} RunKeepsCeiling(floor: nat, es: seq<Emission>, t: int, clock: int)
    requires Ticking(es) && forall i | 0 <= i < |es| :: es[i].now <= clock
    ensures var w := AfterEmits(floor, es);
            Ceiling(w, Delivered(floor, es, t, t + HOUR), t) && (w.start.Some? ==> w.start.value <= clock)
  {
    if es != [] {
      RunKeepsCeiling(floor, Front(es), t, Last(es).now);
      hide Ceiling;
      EmitKeepsCeiling(floor, AfterEmits(floor, Front(es)), Last(es), Delivered(floor, Front(es), t, t + HOUR), t);
    }
  }

  /** At most 119 alerts are delivered in any hour, and at most 60 in an hour that starts with
      a window; the ceiling is per tumbling window. */
  lemma HourlyCeiling(floor: nat, es: seq<Emission>, t: int)
    requires Ticking(es)
    ensures Delivered(floor, es, t, t + HOUR) <= 119
    ensures AfterEmits(floor, es).start == Some(t) ==> Delivered(floor, es, t, t + HOUR) <= 60
  {
    RunKeepsCeiling(floor, es, t, if es == [] then 0 else Last(es).now);
  }

  /** The emissions whose level is at least the floor. */
  function AtLeast(floor: nat, es: seq<Emission>): seq<Emission> {
    if es == [] then []
    else if Last(es).rank >= floor then AtLeast(floor, Front(es)) + [Last(es)]
    else AtLeast(floor, Front(es))
  }

  /** What is below the floor might as well not have been emitted: it is not delivered, and
      takes no place under the ceiling. */
  lemma {:induction false} FloorFilters(floor: nat, es: seq<Emission>, lo: int, hi: int)
    ensures AfterEmits(floor, es) == AfterEmits(0, AtLeast(floor, es))
    ensures Delivered(floor, es, lo, hi) == Delivered(0, AtLeast(floor, es), lo, hi)
  {
    if es != [] {
      FloorFilters(floor, Front(es), lo, hi);
      var kept := AtLeast(floor, Front(es));
      assert Front(kept + [Last(es)]) == kept;
    }
  }

  /** Nothing at all happens below the floor. */
  lemma BelowFloor(floor: nat, es: seq<Emission>)
    requires es != [] && Last(es).rank < floor
    ensures MessageAt(floor, es) == Silent && AfterEmits(floor, es) == AfterEmits(floor, Front(es))
  {}

  /** Emission `j` found no window open, and all from there on came within its hour. */
  ghost predicate OneWindow(floor: nat, es: seq<Emission>, j: nat) {
    && j < |es|
    && (AfterEmits(floor, es[..j]).start.Some? ==> es[j].now - AfterEmits(floor, es[..j]).start.value > HOUR)
    && forall k | j <= k < |es| :: es[k].rank >= floor && es[k].now - es[j].now <= HOUR
  }

  /** Of one window the first 60 are delivered, the next is the one notice, the rest is silence. */
  lemma {:induction false} PlaceInWindow(floor: nat, es: seq<Emission>, j: nat)
    requires OneWindow(floor, es, j)
    ensures AfterEmits(floor, es) == Window(Some(es[j].now), |es| - j)
    ensures MessageAt(floor, es) == if |es| - j <= 60 then Alert else if |es| - j == 61 then CeilingNotice else Silent
  {
    if j == |es| - 1 {
      assert Front(es) == es[..j];
    } else {
      assert Front(es)[..j] == es[..j];
      PlaceInWindow(floor, Front(es), j);
    }
  }

  /** Every emission from the floor up belongs to such a window, those below the floor left out. */
  lemma {:induction false} WindowOf(es: seq<Emission>) returns (j: nat)
    requires es != []
    ensures OneWindow(0, es, j)
  {
    j := |es| - 1;
    assert es[..j] == Front(es);
    if |es| > 1 {
      var i := WindowOf(Front(es));
      PlaceInWindow(0, Front(es), i);
      if es[j].now - es[i].now <= HOUR {
        assert Front(es)[..i] == es[..i];
        j := i;
      }
    }
  }

  /** What becomes of an emission from the floor up, in any run: an alert exactly while fewer
      than 60 of the floor or above came before it in its window. */
  lemma MessageIs(floor: nat, es: seq<Emission>) returns (j: nat)
    requires es != [] && Last(es).rank >= floor
    ensures OneWindow(0, AtLeast(floor, es), j)
    ensures var n := |AtLeast(floor, es)| - j;
            MessageAt(floor, es) == if n <= 60 then Alert else if n == 61 then CeilingNotice else Silent
  {
    var kept := AtLeast(floor, es);
    j := WindowOf(kept);
    PlaceInWindow(0, kept, j);
    FloorFilters(floor, Front(es), 0, 0);
    assert Front(kept) == AtLeast(floor, Front(es)) && Last(kept) == Last(es);
  }

  /** `n` emissions at once, none below the floor. */
  function Flood(at: int, n: nat): seq<Emission> { seq(n, _ => Emission(at, 0)) }

  lemma {:induction false} FloodDelivers(es: seq<Emission>, at: int, n: nat, lo: int, hi: int)
    requires AfterEmits(0, es).start == Some(at) || (AfterEmits(0, es).start.Some? && at - AfterEmits(0, es).start.value == HOUR)
    requires AfterEmits(0, es).count + n <= MAX_DELIVERIES_PER_HOUR && lo <= at <= hi
    ensures AfterEmits(0, es + Flood(at, n)) == AfterEmits(0, es).(count := AfterEmits(0, es).count + n)
    ensures Delivered(0, es + Flood(at, n), lo, hi) == Delivered(0, es, lo, hi) + n
  {
    if n == 0 {
      assert es + Flood(at, 0) == es;
    } else {
      FloodDelivers(es, at, n - 1, lo, hi);
      var b := es + Flood(at, n - 1);
      assert es + Flood(at, n) == b + [Emission(at, 0)];
      assert Front(b + [Emission(at, 0)]) == b;
    }
  }

  /** 119 is reached: one alert, 59 more just as its window ends, 60 a nanosecond later. */
  lemma CeilingReached() returns (es: seq<Emission>, t: int)
    ensures Ticking(es) && Delivered(0, es, t, t + HOUR) == 119
  {
    t := HOUR;
    var a := [Emission(0, 0)];
    assert Front(a) == [];
    FloodDelivers(a, t, 59, t, t + HOUR);
    var b := a + Flood(t, 59);
    var c := b + [Emission(t + 1, 0)];
    assert Front(c) == b;
    FloodDelivers(c, t + 1, 59, t, t + HOUR);
    es := c + Flood(t + 1, 59);
  }

  // ---- The object ----

  /** What `deliver` is handed. */
  datatype Notice = AlertText(fp: string) | CeilingText | SaturationText

  function NoticeOf(m: Message, fp: string): seq<Notice> {
    match m
    case Alert => [AlertText(fp)]
    case CeilingNotice => [CeilingText]
    case Silent => []
  }

  /** `New`: options left at zero or below take their defaults. */
  function Defaulted(minOccurrences: int, window: int, maxTracked: int, floor: nat): (o: Options)
    ensures ValidOptions(o) && o.floor == floor
    ensures if minOccurrences > 0 then o.minOccurrences == minOccurrences else o.minOccurrences == 3
    ensures if window > 0 then o.window == window else o.window == 900 * SECOND
    ensures if maxTracked > 0 then o.maxTracked == maxTracked else o.maxTracked == 10000
  {
    Options(if minOccurrences <= 0 then 3 else minOccurrences,
            if window <= 0 then 15 * 60 * SECOND else window,
            if maxTracked <= 0 then MAX_TRACKED_FINGERPRINTS else maxTracked,
            floor)
  }

  /** Storing the updated state over the one looked up is a tracking step. */
  lemma ReportStores(o: Options, m: States, e: Event, m1: States, st: FpState, due: bool)
    requires e.Report? && !Refused(o, m, e) && m1 == Room(m, e.victim)[e.fp := Found(m, e)]
    requires due == Due(o, Counted(o, Found(m, e), e.now))
    requires var c := Counted(o, Found(m, e), e.now); st == c.(alerted := c.alerted || due)
    ensures m1[e.fp := st] == Track(o, m, e) && due == Emits(o, m, e)
  {}

  class Alerter {
    const opts: Options
    var states: States
    var saturationEvictions: nat
    var saturationNotified: bool
    var deliveryWindowStart: Option<int>
    var deliveryWindowCount: nat
    var outbox: seq<Notice>

    constructor (minOccurrences: int, window: int, maxTracked: int, floor: nat)
      ensures opts == Defaulted(minOccurrences, window, maxTracked, floor)
      ensures states == map[] && outbox == [] && Delivery() == Window(None, 0)
    {
      opts := Defaulted(minOccurrences, window, maxTracked, floor);
      states, saturationEvictions, saturationNotified := map[], 0, false;
      deliveryWindowStart, deliveryWindowCount, outbox := None, 0, [];
    }

    function Delivery(): Window
      reads this
    {
      Window(deliveryWindowStart, deliveryWindowCount)
    }

    /** Walks the states in whatever order the map gives. */
    method EvictOneLocked() returns (ok: bool, ghost chosen: Option<string>)
      modifies this`states, this`saturationEvictions
      ensures MayEvict(old(states), chosen) && ok == chosen.Some?
      ensures states == Room(old(states), chosen)
      ensures saturationEvictions == old(saturationEvictions) + if ok then 1 else 0
    {
      var keys := states.Keys;
      var victim := "";
      var victimAcked, victimLast := false, 0;
      ghost var muddled := "" in states && Evictable(states[""]);
      chosen := None;
      while keys != {}
        invariant keys <= states.Keys
        invariant victim != "" ==> victim in states && Evictable(states[victim])
        invariant victim != "" ==> victimAcked == states[victim].acked && victimLast == states[victim].last
        invariant !muddled && victim != "" ==>
          forall x | x in states && x !in keys && Evictable(states[x]) :: !Beats(states[x], states[victim])
        invariant !muddled && victim == "" ==> forall x | x in states && x !in keys :: !Evictable(states[x])
      {
        var fp :| fp in keys;
        keys := keys - {fp};
        var st := states[fp];
        if st.acked || st.alerted {
          var better := victim == "" || (st.acked && !victimAcked) || (st.acked == victimAcked && st.last < victimLast);
          if better {
            victim, victimAcked, victimLast := fp, st.acked, st.last;
          }
        }
      }
      if victim == "" {
        return false, None;
      }
      chosen := Some(victim);
      states := states - {victim};
      saturationEvictions := saturationEvictions + 1;
      ok := true;
    }

    method Emit(fp: string, now: int, rank: nat)
      modifies this`deliveryWindowStart, this`deliveryWindowCount, this`outbox
      ensures Delivery() == Emitted(opts.floor, old(Delivery()), Emission(now, rank))
      ensures outbox == old(outbox) + NoticeOf(MessageOf(opts.floor, old(Delivery()), Emission(now, rank)), fp)
      ensures rank < opts.floor ==> Delivery() == old(Delivery()) && outbox == old(outbox)
    {
      if rank < opts.floor {
        return;
      }
      if deliveryWindowStart.None? || now - deliveryWindowStart.value > HOUR {
        deliveryWindowStart, deliveryWindowCount := Some(now), 0;
      }
      deliveryWindowCount := deliveryWindowCount + 1;
      if deliveryWindowCount <= MAX_DELIVERIES_PER_HOUR {
        outbox := outbox + [AlertText(fp)];
      } else if deliveryWindowCount == MAX_DELIVERIES_PER_HOUR + 1 {
        outbox := outbox + [CeilingText];
      }
    }

    /** Finds or makes room for a state; shared by the two ways of reporting. */
    method Lookup(fp: string, now: int) returns (ok: bool, st: FpState, ghost victim: Option<string>)
      modifies this`states, this`saturationEvictions
      ensures if NeedsRoom(opts, old(states), fp) then MayEvict(old(states), victim) else victim.None?
      ensures ok == !(NeedsRoom(opts, old(states), fp) && victim.None?)
      ensures st == if fp in old(states) then old(states)[fp] else Fresh(now)
      ensures states == if ok then Room(old(states), victim)[fp := st] else old(states)
    {
      ok, victim, st := true, None, Fresh(now);
      if fp !in states {
        if |states| >= opts.maxTracked {
          ok, victim := EvictOneLocked();
          if !ok { return; }
        }
        states := states[fp := st];
      } else {
        st := states[fp];
      }
    }

    /** Outside saturation, exactly an emitting event reaches `emit`. */
    predicate Told(rank: nat, e: Event, was: States, w: Window, out: seq<Notice>)
      reads this
    {
      if !Refused(opts, was, e) && Emits(opts, was, e) then
        Delivery() == Emitted(opts.floor, w, Emission(e.now, rank))
        && outbox == out + NoticeOf(MessageOf(opts.floor, w, Emission(e.now, rank)), e.fp)
      else
        Delivery() == w && (!Refused(opts, was, e) ==> outbox == out)
    }

    method Report(fp: string, now: int, rank: nat) returns (ghost e: Event)
      modifies this
      ensures e.Report? && e.fp == fp && e.now == now && Allowed(opts, old(states), e)
      ensures states == Track(opts, old(states), e)
      ensures Told(rank, e, old(states), old(Delivery()), old(outbox))
      ensures saturationNotified == (old(saturationNotified) || Refused(opts, old(states), e))
      ensures Refused(opts, old(states), e) ==>
                outbox == old(outbox) + if old(saturationNotified) then [] else [SaturationText]
    {
      hide MayEvict, MessageOf, Emitted;
      var ok, st, victim := Lookup(fp, now);
      e := Event.Report(fp, now, victim);
      if !ok {
        if !saturationNotified { outbox := outbox + [SaturationText]; }
        saturationNotified := true;
        return;
      }
      st := st.(last := now, occurrences := st.occurrences + 1);
      if now - st.windowStart > opts.window {
        st := st.(windowStart := now, windowCount := 0);
      }
      st := st.(windowCount := st.windowCount + 1);
      assert st == Counted(opts, Found(old(states), e), now);
      var shouldAlert := !st.alerted && !st.acked && st.windowCount >= opts.minOccurrences;
      if shouldAlert { st := st.(alerted := true); }
      ReportStores(opts, old(states), e, states, st, shouldAlert);
      hide Track, Counted, Emits, Room;
      states := states[fp := st];
      if shouldAlert { Emit(fp, now, rank); }
    }

    /** `ReportDeclared` and `ReportObserved`: the first report alerts. */
    method ReportFirst(fp: string, now: int, rank: nat) returns (ghost e: Event)
      modifies this
      ensures e.ReportFirst? && e.fp == fp && e.now == now && Allowed(opts, old(states), e)
      ensures states == Track(opts, old(states), e)
      ensures Told(rank, e, old(states), old(Delivery()), old(outbox))
      ensures saturationNotified == old(saturationNotified) && (Refused(opts, old(states), e) ==> outbox == old(outbox))
    {
      hide MayEvict, MessageOf, Emitted;
      var ok, st, victim := Lookup(fp, now);
      e := Event.ReportFirst(fp, now, victim);
      if !ok { return; }
      st := st.(last := now, occurrences := st.occurrences + 1);
      var shouldAlert := !st.alerted && !st.acked;
      if shouldAlert { st := st.(alerted := true); }
      states := states[fp := st];
      if shouldAlert { Emit(fp, now, rank); }
    }

    method Ack(fp: string) returns (ok: bool)
      modifies this`states
      ensures ok == (fp in old(states))
      ensures forall now :: states == Track(opts, old(states), Event.Ack(fp, now))
    {
      ok := fp in states;
      if ok { states := states[fp := states[fp].(acked := true)]; }
    }
  }
}
