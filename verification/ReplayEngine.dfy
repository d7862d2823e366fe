/** The paced replay of a backtest, with or without the risk gate, under any schedule of pause,
    resume, stop and speed changes, and its agreement with the MAX-speed loop. */
module ReplayEngine {
  import opened FillEngine
  import opened GatedRun
  import opened RunLoops
  import opened Labels
  import opened LoopAgreement

  datatype Speed = OneX | TwoX | FiveX | TenX | HundredX | MAX

  /** Where the candle loop is suspended. */
  datatype Phase = Top | AwaitingResume | CandleDue | Deciding | Placing(orders: seq<Order>)
    | Recording | Delaying | Done

  /** `late` counts the candles finished since stop was called; the engine does not read it. */
  datatype Engine<S> = Engine(
    phase: Phase, index: nat, paused: bool, stopped: bool, speed: Speed,
    session: Session, strategy: S, snapshots: seq<real>, late: nat)
  {
    function Seen(): Progress<S> {
      Progress(session, strategy)
    }
  }

  function RelabelEach(orders: seq<Order>, reason: string, relabel: Relabel): (r: seq<Order>)
    ensures |r| == |orders| && forall k :: 0 <= k < |orders| ==> r[k] == relabel(orders[k], reason)
  {
    seq(|orders|, k requires 0 <= k < |orders| => relabel(orders[k], reason))
  }

  /** The fills of a candle, and its risk snapshot. */
  function Feed(x: Session, i: nat): Session {
    SnapIf(Act(x, Bar(i)), REPLAY_STYLE.snapFirst)
  }

  /** One step of the loop, between two points at which it may be suspended. */
  function Tick<S>(e: Engine<S>, step: Strategy<S>): Engine<S> {
    match e.phase
    case Top => e.(phase := if e.index >= |e.session.broker.candles| || e.stopped then Done else AwaitingResume)
    case AwaitingResume => if e.paused then e else e.(phase := CandleDue)
    case CandleDue => e.(session := Feed(e.session, e.index), phase := Deciding)
    case Deciding =>
      if e.index >= |e.session.broker.candles| then e
      else
        var d := step(e.strategy, e.session.broker.candles[e.index]);
        e.(strategy := d.state, phase := Placing(RelabelEach(d.signal.orders, d.signal.reason, REPLAY_STYLE.relabel)))
    case Placing(orders) =>
      if orders == [] then e.(phase := Recording)
      else e.(session := Submit(e.session, orders[0]), phase := Placing(orders[1..]))
    case Recording => e.(snapshots := e.snapshots + [EquityOf(e.Seen())], phase := Delaying)
    case Delaying => e.(index := e.index + 1, phase := Top, late := if e.stopped then e.late + 1 else e.late)
    case Done => e
  }

  /** What may happen at any suspension point. */
  datatype Event = Loop | Pause | Resume | Stop | SetSpeed(speed: Speed)

  function Next<S>(e: Engine<S>, ev: Event, step: Strategy<S>): Engine<S> {
    match ev
    case Loop => Tick(e, step)
    case Pause => e.(paused := true)
    case Resume => e.(paused := false)
    case Stop => e.(stopped := true, paused := false)
    case SetSpeed(speed) => e.(speed := speed)
  }

  function Schedule<S>(e: Engine<S>, events: seq<Event>, step: Strategy<S>): Engine<S> {
    if events == [] then e else Next(Schedule(e, events[..|events|-1], step), events[|events|-1], step)
  }

  function Begin<S>(p: Progress<S>, paused: bool, speed: Speed): Engine<S> {
    Engine(Top, 0, paused, false, speed, p.session, p.strategy, [], 0)
  }

  // ----- the invariant

  function SubmitRest(x: Session, orders: seq<Order>): Session
    decreases |orders|
  {
    if orders == [] then x else SubmitRest(Submit(x, orders[0]), orders[1..])
  }

  /** The loop has just finished n whole candles. */
  ghost predicate Whole<S>(e: Engine<S>, p: Progress<S>, step: Strategy<S>, n: nat) {
    n <= |p.session.broker.candles| && e.Seen() == Candles(p, step, n, REPLAY_STYLE)
  }

  /** The loop is inside candle i, with these orders still to be submitted. */
  ghost predicate Within<S>(e: Engine<S>, p: Progress<S>, step: Strategy<S>, i: nat, orders: seq<Order>) {
    && i < |p.session.broker.candles|
    && Progress(SubmitRest(e.session, orders), e.strategy) == Candles(p, step, i + 1, REPLAY_STYLE)
  }

  /** The loop is inside candle i, about to ask the strategy. */
  ghost predicate Fed<S>(e: Engine<S>, p: Progress<S>, step: Strategy<S>, i: nat) {
    && i < |p.session.broker.candles|
    && var q := Candles(p, step, i, REPLAY_STYLE);
       e.session == Feed(q.session, i) && e.strategy == q.strategy
  }

  ghost predicate Shows<S>(e: Engine<S>, p: Progress<S>, step: Strategy<S>, n: nat) {
    IsCurve(p, step, n, REPLAY_STYLE, e.snapshots)
  }

  ghost predicate InStep<S>(e: Engine<S>, p: Progress<S>, step: Strategy<S>) {
    match e.phase
    case Deciding => Fed(e, p, step, e.index) && Shows(e, p, step, e.index)
    case Placing(orders) => Within(e, p, step, e.index, orders) && Shows(e, p, step, e.index)
    case Recording => Whole(e, p, step, e.index + 1) && Shows(e, p, step, e.index)
    case Delaying => Whole(e, p, step, e.index + 1) && Shows(e, p, step, e.index + 1)
    case _ => Whole(e, p, step, e.index) && Shows(e, p, step, e.index)
  }

  ghost predicate OnTime<S>(e: Engine<S>, n: nat) {
    && e.index <= n && e.late <= 1 && (!e.stopped ==> e.late == 0)
    && (e.phase != Top && e.phase != Done ==> e.index < n && e.late == 0)
    && (e.phase == Done ==> e.index == n || e.stopped)
  }

  /** At each suspension point the session and the strategy are those of whole candles, or of
      whole candles and a known part of one. */
  ghost predicate Tracks<S>(e: Engine<S>, p: Progress<S>, step: Strategy<S>) {
    OnTime(e, |p.session.broker.candles|) && InStep(e, p, step)
  }

  lemma {:induction false} SubmitRestAppend(x: Session, orders: seq<Order>, last: Order)
    ensures SubmitRest(x, orders + [last]) == Submit(SubmitRest(x, orders), last)
    decreases |orders|
  {
    if orders == [] {
      assert (orders + [last])[1..] == [];
    } else {
      assert (orders + [last])[1..] == orders[1..] + [last];
      SubmitRestAppend(Submit(x, orders[0]), orders[1..], last);
    }
  }

  /** Submitting a signal's orders is submitting them relabelled, first to last. */
  lemma {:induction false} SubmitEachIsSubmitRest(x: Session, orders: seq<Order>, reason: string, relabel: Relabel,
      y: Session)
    requires y == SubmitEach(x, orders, reason, relabel)
    ensures y == SubmitRest(x, RelabelEach(orders, reason, relabel))
  {
    if orders == [] {
      assert RelabelEach(orders, reason, relabel) == [];
    } else {
      var init, last := orders[..|orders|-1], relabel(orders[|orders|-1], reason);
      SubmitEachIsSubmitRest(x, init, reason, relabel, SubmitEach(x, init, reason, relabel));
      assert RelabelEach(orders, reason, relabel) == RelabelEach(init, reason, relabel) + [last];
      SubmitRestAppend(x, RelabelEach(init, reason, relabel), last);
    }
  }

  /** What is left of a candle once the strategy has decided. */
  lemma DecisionCompletesCandle<S>(q: Progress<S>, step: Strategy<S>, i: nat)
    requires i < |q.session.broker.candles|
    ensures var d := step(q.strategy, q.session.broker.candles[i]);
      OneCandle(q, step, i, REPLAY_STYLE)
      == Progress(SubmitRest(Feed(q.session, i), RelabelEach(d.signal.orders, d.signal.reason, FillReason)), d.state)
  {
    var d := step(q.strategy, q.session.broker.candles[i]);
    SubmitEachIsSubmitRest(Feed(q.session, i), d.signal.orders, d.signal.reason, FillReason,
                           SubmitEach(Feed(q.session, i), d.signal.orders, d.signal.reason, FillReason));
  }

  lemma FeedKeepsCandles(x: Session, i: nat)
    ensures Feed(x, i).broker.candles == x.broker.candles
  {
    SweepKeepsCandles(x.broker.(index := i), x.broker.counter);
  }

  // ----- every step keeps it

  lemma TopTracks<S>(e: Engine<S>, p: Progress<S>, step: Strategy<S>)
    requires Tracks(e, p, step) && e.phase == Top
    ensures Tracks(Tick(e, step), p, step)
  {
    assert e.Seen().session.broker.candles == p.session.broker.candles;
  }

  lemma FeedingTracks<S>(e: Engine<S>, p: Progress<S>, step: Strategy<S>)
    requires Tracks(e, p, step) && e.phase == CandleDue
    ensures Tracks(Tick(e, step), p, step)
  {
    var q := Candles(p, step, e.index, REPLAY_STYLE);
    assert e.session == q.session && e.strategy == q.strategy;
  }

  lemma DecidingTracks<S>(e: Engine<S>, p: Progress<S>, step: Strategy<S>)
    requires Tracks(e, p, step) && e.phase == Deciding
    ensures Tracks(Tick(e, step), p, step) && e.index < |e.session.broker.candles|
  {
    var q := Candles(p, step, e.index, REPLAY_STYLE);
    FeedKeepsCandles(q.session, e.index);
    DecisionCompletesCandle(q, step, e.index);
    LastCandle(p, step, e.index + 1, REPLAY_STYLE);
  }

  lemma PlacingTracks<S>(e: Engine<S>, p: Progress<S>, step: Strategy<S>)
    requires Tracks(e, p, step) && e.phase.Placing?
    ensures Tracks(Tick(e, step), p, step)
  {
    RestOneLess(e.session, e.phase.orders);
  }

  lemma RestOneLess(x: Session, orders: seq<Order>)
    ensures SubmitRest(x, orders) == if orders == [] then x else SubmitRest(Submit(x, orders[0]), orders[1..])
  {
  }

  lemma RecordingTracks<S>(e: Engine<S>, p: Progress<S>, step: Strategy<S>)
    requires Tracks(e, p, step) && e.phase == Recording
    ensures Tracks(Tick(e, step), p, step)
  {
    assert EquityOf(e.Seen()) == EquityAfter(p, step, e.index + 1, REPLAY_STYLE);
    CurveGrows(p, step, e.index, REPLAY_STYLE, e.snapshots);
  }

  lemma IdleTracks<S>(e: Engine<S>, p: Progress<S>, step: Strategy<S>)
    requires Tracks(e, p, step) && e.phase in {AwaitingResume, Delaying, Done}
    ensures Tracks(Tick(e, step), p, step)
  {
  }

  lemma TickTracks<S>(e: Engine<S>, p: Progress<S>, step: Strategy<S>)
    requires Tracks(e, p, step)
    ensures Tracks(Tick(e, step), p, step)
  {
    match e.phase
    case Top => TopTracks(e, p, step);
    case CandleDue => FeedingTracks(e, p, step);
    case Deciding => DecidingTracks(e, p, step);
    case Placing(_) => PlacingTracks(e, p, step);
    case Recording => RecordingTracks(e, p, step);
    case _ => IdleTracks(e, p, step);
  }

  lemma ControlTracks<S>(e: Engine<S>, p: Progress<S>, step: Strategy<S>, ev: Event)
    requires Tracks(e, p, step) && ev != Loop
    ensures Tracks(Next(e, ev, step), p, step)
  {
    SameProgressTracks(e, Next(e, ev, step), p, step);
  }

  /** Pausing, stopping and pacing leave everything the invariant speaks of but the clock. */
  lemma SameProgressTracks<S>(e: Engine<S>, f: Engine<S>, p: Progress<S>, step: Strategy<S>)
    requires InStep(e, p, step)
    requires f.phase == e.phase && f.index == e.index && f.session == e.session
             && f.strategy == e.strategy && f.snapshots == e.snapshots
    ensures InStep(f, p, step)
  {
  }

  /** Whatever the schedule, the replay tracks the candle loop. */
  lemma {:induction false} ScheduleTracks<S>(p: Progress<S>, paused: bool, speed: Speed, events: seq<Event>,
      step: Strategy<S>)
    ensures Tracks(Schedule(Begin(p, paused, speed), events, step), p, step)
  {
    if events != [] {
      ScheduleTracks(p, paused, speed, events[..|events|-1], step);
      var e := Schedule(Begin(p, paused, speed), events[..|events|-1], step);
      if events[|events|-1] == Loop {
        TickTracks(e, p, step);
      } else {
        ControlTracks(e, p, step, events[|events|-1]);
      }
    }
  }

  // ----- agreement with the MAX loop

  /** A replay that runs to its end reaches, under any schedule of pauses and speed changes, the
      strategy state, the equity curve, the gate's decisions and counts and, but for reason
      labels, the broker state of the MAX loop (and so of the fast loop), before and after the
      end-of-run close: without a gate, or with one that no peak can sway. */
  lemma ReplayRefinesMax<S(!new)>(p: Progress<S>, paused: bool, speed: Speed, events: seq<Event>, step: Strategy<S>)
    requires Steady(p.session)
    requires var e := Schedule(Begin(p, paused, speed), events, step); e.phase == Done && !e.stopped
    ensures var e, n := Schedule(Begin(p, paused, speed), events, step), |p.session.broker.candles|;
      && SameProgress(e.Seen(), Candles(p, step, n, MAX_STYLE))
      && IsCurve(p, step, n, MAX_STYLE, e.snapshots)
      && forall instrument :: SameState(CloseOpenPositions(e.session.broker, instrument),
                                        CloseOpenPositions(Candles(p, step, n, MAX_STYLE).session.broker, instrument))
  {
    var e, n := Schedule(Begin(p, paused, speed), events, step), |p.session.broker.candles|;
    ScheduleTracks(p, paused, speed, events, step);
    LoopsAgree(p, step, n);
    CurvesAgree(p, step, n, e.snapshots);
    var s, t := e.session.broker, Candles(p, step, n, MAX_STYLE).session.broker;
    forall instrument ensures SameState(CloseOpenPositions(s, instrument), CloseOpenPositions(t, instrument)) {
      CloseEachSame(s, t, s.account.symbols, instrument);
    }
  }

  /** A stopped replay that has ended is a prefix of the full run, and finished at most one
      candle after stop was called. */
  lemma StopLeavesAPrefix<S(!new)>(p: Progress<S>, paused: bool, speed: Speed, events: seq<Event>, step: Strategy<S>)
    requires Steady(p.session)
    requires Schedule(Begin(p, paused, speed), events, step).phase == Done
    ensures var e := Schedule(Begin(p, paused, speed), events, step);
      && e.index <= |p.session.broker.candles| && e.late <= 1
      && SameProgress(e.Seen(), Candles(p, step, e.index, MAX_STYLE))
      && IsCurve(p, step, e.index, MAX_STYLE, e.snapshots)
  {
    var e := Schedule(Begin(p, paused, speed), events, step);
    ScheduleTracks(p, paused, speed, events, step);
    LoopsAgree(p, step, e.index);
    CurvesAgree(p, step, e.index, e.snapshots);
  }

  // ----- pausing

  /** Neither resumed nor stopped. */
  ghost predicate StaysPaused(events: seq<Event>) {
    Resume !in events && Stop !in events
  }

  /** Between candles: nothing of the next one has been done. */
  predicate BetweenCandles(phase: Phase) {
    phase in {Top, AwaitingResume, Done}
  }

  ghost predicate Holds<S>(e: Engine<S>, f: Engine<S>) {
    && f.paused && f.stopped == e.stopped
    && (f.index == e.index || (f.index == e.index + 1 && BetweenCandles(f.phase) && !BetweenCandles(e.phase)))
    && (BetweenCandles(e.phase) ==>
          && BetweenCandles(f.phase) && f.index == e.index && f.snapshots == e.snapshots
          && f.session == e.session && f.strategy == e.strategy)
  }

  /** A paused loop finishes the candle it is in, if it is in one, and does nothing of the next until
      it is resumed or stopped. */
  lemma {:induction false} PausedHolds<S>(e: Engine<S>, events: seq<Event>, step: Strategy<S>)
    requires e.paused && StaysPaused(events)
    ensures Holds(e, Schedule(e, events, step))
  {
    if events != [] {
      assert events[|events|-1] in events;
      PausedHolds(e, events[..|events|-1], step);
    }
  }

  // ----- the replay ends

  function PhaseRank(phase: Phase): nat {
    match phase
    case Top => 7
    case AwaitingResume => 6
    case CandleDue => 5
    case Deciding => 4
    case Placing(_) => 3
    case Recording => 2
    case Delaying => 1
    case Done => 0
  }

  function Ticks<S>(e: Engine<S>, k: nat, step: Strategy<S>): Engine<S>
    decreases k
  {
    if k == 0 then e else Ticks(Tick(e, step), k - 1, step)
  }

  /** A turn that is not held up either ends a candle, or moves on to a later phase of it, or
      submits an order. */
  ghost predicate MovesOn<S>(e: Engine<S>, f: Engine<S>) {
    && !f.paused
    && (f.index > e.index
        || (f.index == e.index && PhaseRank(f.phase) < PhaseRank(e.phase))
        || (f.index == e.index && f.phase.Placing? && e.phase.Placing? && |f.phase.orders| < |e.phase.orders|))
  }

  lemma TickMovesOn<S>(e: Engine<S>, step: Strategy<S>)
    requires !e.paused && e.phase != Done && (e.phase == Deciding ==> e.index < |e.session.broker.candles|)
    ensures MovesOn(e, Tick(e, step))
  {
  }

  /** Left alone and not paused, the loop always ends. */
  lemma {:induction false} LoopEnds<S>(e: Engine<S>, p: Progress<S>, step: Strategy<S>) returns (k: nat)
    requires Tracks(e, p, step) && !e.paused
    ensures Ticks(e, k, step).phase == Done
    decreases |p.session.broker.candles| - e.index, PhaseRank(e.phase), if e.phase.Placing? then |e.phase.orders| else 0
  {
    if e.phase == Done {
      k := 0;
    } else {
      var rest := EndsAfter(e, Tick(e, step), p, step);
      k := rest + 1;
    }
  }

  lemma {:induction false} EndsAfter<S>(e: Engine<S>, f: Engine<S>, p: Progress<S>, step: Strategy<S>) returns (k: nat)
    requires Tracks(e, p, step) && !e.paused && e.phase != Done && f == Tick(e, step)
    ensures Ticks(f, k, step).phase == Done
    decreases |p.session.broker.candles| - e.index, PhaseRank(e.phase),
              if e.phase.Placing? then |e.phase.orders| else 0, 0
  {
    if e.phase == Deciding {
      DecidingTracks(e, p, step);
    }
    TickTracks(e, p, step);
    TickMovesOn(e, step);
    k := LoopEnds(f, p, step);
  }
  /** Wherever the loop is held up, resuming it or stopping it lets it end. */
  lemma ResumedOrStoppedEnds<S>(e: Engine<S>, p: Progress<S>, step: Strategy<S>, ev: Event) returns (k: nat)
    requires Tracks(e, p, step) && ev in {Resume, Stop}
    ensures Ticks(Next(e, ev, step), k, step).phase == Done
  {
    ControlTracks(e, p, step, ev);
    k := LoopEnds(Next(e, ev, step), p, step);
  }
}
