/** The bounded pool that runs channel tests: a dispatcher, workers, a closer and
    a collector joined by two unbuffered channels, under a cancellable context. */
module ChannelTestSummary {
  import opened ChannelStatus

  datatype Summary = Summary(tested: int, succeeded: int, failed: int, disabled: int, enabled: int)

  const ZERO := Summary(0, 0, 0, 0, 0)

  function Plus(a: Summary, b: Summary): Summary {
    Summary(a.tested + b.tested, a.succeeded + b.succeeded, a.failed + b.failed,
            a.disabled + b.disabled, a.enabled + b.enabled)
  }

  datatype Counter = Tested | Succeeded | Failed | Disabled | Enabled

  function At(s: Summary, c: Counter): int {
    match c
    case Tested => s.tested
    case Succeeded => s.succeeded
    case Failed => s.failed
    case Disabled => s.disabled
    case Enabled => s.enabled
  }

  /** What every summary promises its reader. */
  predicate Consistent(s: Summary) {
    && 0 <= s.succeeded && 0 <= s.failed && 0 <= s.disabled && 0 <= s.enabled
    && s.tested == s.succeeded + s.failed
    && s.disabled + s.enabled <= s.tested
  }

  /** testChannelForHealthCheck without its effects outside the counters: the
      outcome of the test, the clock and the two service decisions are inputs. */
  method HealthCheck(status: int, cancelled: bool, apiError: bool, localError: bool, banWorthy: bool,
                     autoDisable: bool, millis: int, threshold: int, allowDisable: bool, autoBan: bool,
                     autoEnable: bool)
    returns (s: Summary)
    ensures Consistent(s)
    ensures cancelled ==> s == ZERO
    ensures !cancelled ==> s.tested == 1
    ensures var slow := autoDisable && millis > threshold;
            !cancelled ==>
              && (s.succeeded == 1 <==> !apiError && !localError && !slow)
              && (s.disabled == 1 <==>
                  allowDisable && autoBan && status == ENABLED && ((apiError && banWorthy) || slow))
              && (s.enabled == 1 <==> autoEnable && status == AUTO_DISABLED && s.succeeded == 1)
  {
    var tested, succeeded, failed, disabled, enabled := 0, 0, 0, 0, 0;
    var isEnabled := status == ENABLED;
    if cancelled {
      return ZERO;
    }
    tested := tested + 1;
    var error, shouldBan := apiError, false;
    if error {
      shouldBan := banWorthy;
    }
    if autoDisable && !shouldBan {
      if millis > threshold {
        error, shouldBan := true, true;
      }
    }
    if !error && !localError {
      succeeded := succeeded + 1;
    } else {
      failed := failed + 1;
    }
    if allowDisable && isEnabled && shouldBan && autoBan {
      disabled := disabled + 1;
    }
    if !localError && !isEnabled && autoEnable && !error && status == AUTO_DISABLED {
      enabled := enabled + 1;
    }
    s := Summary(tested, succeeded, failed, disabled, enabled);
  }
}

module WorkerPool {
  import opened ChannelStatus
  import opened ChannelTestSummary

  /** A pointer to a channel; the pool skips nil and manually disabled ones. */
  datatype Channel = NoChannel | Channel(id: int, status: int)

  /** paced: whether a worker waits between two tests (RequestInterval > 0). */
  datatype Config = Config(channels: seq<Channel>, concurrency: int, run: Channel -> Summary, paced: bool)

  const DEFAULT_CONCURRENCY := 1
  const MAX_CONCURRENCY := 32

  function NormalizeConcurrency(c: int): (n: int)
    ensures 1 <= n <= 32
    ensures 1 <= c <= 32 ==> n == c
    ensures c < 1 ==> n == 1
    ensures c > 32 ==> n == 32
  {
    if c < 1 then DEFAULT_CONCURRENCY else if c > MAX_CONCURRENCY then MAX_CONCURRENCY else c
  }

  function WorkerCount(cfg: Config): (n: nat)
    ensures n <= |cfg.channels| && n <= NormalizeConcurrency(cfg.concurrency)
    ensures n == |cfg.channels| || n == NormalizeConcurrency(cfg.concurrency)
  {
    var n := NormalizeConcurrency(cfg.concurrency);
    if n <= |cfg.channels| then n else |cfg.channels|
  }

  predicate Skipped(ch: Channel) {
    ch.NoChannel? || ch.status == MANUALLY_DISABLED
  }

  /** What testing channel i yields when nothing is cancelled. */
  function Value(cfg: Config, i: nat): Summary
    requires i < |cfg.channels|
  {
    if Skipped(cfg.channels[i]) then ZERO else cfg.run(cfg.channels[i])
  }

  /** The reference result, counter by counter: the last n channels, tested one after the other. */
  function SumLast(cfg: Config, c: Counter, n: nat): int
    requires n <= |cfg.channels|
  {
    if n == 0 then 0 else At(Value(cfg, |cfg.channels| - n), c) + SumLast(cfg, c, n - 1)
  }

  // ----- the transition system -----

  datatype Worker =
    | Waiting
    | Received(i: nat)
    | Testing(i: nat)
    | Sending(i: nat, result: Summary)
    | Pausing
    | Exited

  datatype Collector = Collecting | Reporting | Returned

  /** delivered is the history of what came over the results channel. */
  datatype State = State(
    cancelled: bool,
    next: nat,
    jobsClosed: bool,
    workers: seq<Worker>,
    resultsClosed: bool,
    collector: Collector,
    summary: Summary,
    processed: nat,
    reports: seq<nat>,
    delivered: seq<(nat, Summary)>)

  /** The moves of one worker. */
  datatype Move =
    | Take
    | Stop
    | End
    | Check
    | Finish(cutShort: bool)
    | Send
    | Resume

  datatype Action =
    | Cancel
    | DispatcherStops
    | DispatcherEnds
    | Work(w: nat, move: Move)
    | Report
    | CloseResults
    | Return

  function Start(cfg: Config): State {
    State(false, 0, false, seq(WorkerCount(cfg), _ => Waiting), false, Collecting, ZERO, 0, [0], [])
  }

  predicate AllExited(ws: seq<Worker>) {
    forall w :: 0 <= w < |ws| ==> ws[w].Exited?
  }

  predicate MoveEnabled(cfg: Config, s: State, x: Worker, m: Move) {
    match m
    // both selects are ready: a waiting worker receives what the dispatcher offers
    case Take => x.Waiting? && !s.jobsClosed && s.next < |cfg.channels|
    case Stop => (x.Waiting? || x.Pausing?) && s.cancelled
    case End => x.Waiting? && s.jobsClosed
    case Check => x.Received? && x.i < |cfg.channels|
    case Finish(cutShort) => x.Testing? && x.i < |cfg.channels| && (cutShort ==> s.cancelled)
    // the collector receives what the worker sends
    case Send => x.Sending? && s.collector.Collecting? && !s.resultsClosed
    case Resume => x.Pausing?
  }

  predicate Enabled(cfg: Config, s: State, a: Action) {
    match a
    case Cancel => !s.cancelled
    case DispatcherStops => !s.jobsClosed && s.cancelled
    case DispatcherEnds => !s.jobsClosed && s.next == |cfg.channels|
    case Work(w, m) => w < |s.workers| && MoveEnabled(cfg, s, s.workers[w], m)
    case Report => s.collector.Reporting?
    case CloseResults => !s.resultsClosed && AllExited(s.workers)
    case Return => s.resultsClosed && s.collector.Collecting?
  }

  /** A test of a cancelled run may come back with the empty summary. */
  function Moved(cfg: Config, s: State, x: Worker, m: Move): Worker
    requires MoveEnabled(cfg, s, x, m)
  {
    match m
    case Take => Received(s.next)
    case Stop => Exited
    case End => Exited
    case Check =>
      if s.cancelled then Exited else if Skipped(cfg.channels[x.i]) then Sending(x.i, ZERO) else Testing(x.i)
    case Finish(cutShort) => Sending(x.i, if cutShort then ZERO else cfg.run(cfg.channels[x.i]))
    case Send => if cfg.paced then Pausing else Waiting
    case Resume => Waiting
  }

  /** The other side of a rendezvous: the dispatcher advances, the collector adds up. */
  function Counterpart(s: State, x: Worker, m: Move): State
    requires m.Send? ==> x.Sending?
  {
    if m.Take? then s.(next := s.next + 1)
    else if m.Send? then
      s.(summary := Plus(s.summary, x.result), processed := s.processed + 1, collector := Reporting,
         delivered := s.delivered + [(x.i, x.result)])
    else s
  }

  function Next(cfg: Config, s: State, a: Action): State
    requires Enabled(cfg, s, a)
  {
    match a
    case Cancel => s.(cancelled := true)
    case DispatcherStops => s.(jobsClosed := true)
    case DispatcherEnds => s.(jobsClosed := true)
    case Work(w, m) =>
      Counterpart(s, s.workers[w], m).(workers := s.workers[w := Moved(cfg, s, s.workers[w], m)])
    case Report =>
      s.(collector := Collecting, reports := if s.cancelled then s.reports else s.reports + [s.processed])
    case CloseResults => s.(resultsClosed := true)
    case Return => s.(collector := Returned)
  }

  predicate Terminated(s: State) {
    s.jobsClosed && AllExited(s.workers) && s.resultsClosed && s.collector.Returned?
  }

  // ----- sums over the workers -----

  function Total(f: Worker -> nat, ws: seq<Worker>): nat {
    if ws == [] then 0 else f(ws[0]) + Total(f, ws[1..])
  }

  lemma {:induction false} TotalUpdate(f: Worker -> nat, ws: seq<Worker>, w: nat, x: Worker)
    requires w < |ws|
    ensures Total(f, ws[w := x]) + f(ws[w]) == Total(f, ws) + f(x)
  {
    var ws' := ws[w := x];
    if w == 0 {
      assert ws'[1..] == ws[1..];
    } else {
      assert ws'[1..] == ws[1..][w - 1 := x];
      TotalUpdate(f, ws[1..], w - 1, x);
    }
  }

  lemma {:induction false} TotalAtMost(f: Worker -> nat, ws: seq<Worker>)
    requires forall x :: f(x) <= 1
    ensures Total(f, ws) <= |ws|
  {
    if ws != [] {
      TotalAtMost(f, ws[1..]);
    }
  }

  lemma {:induction false} TotalZero(f: Worker -> nat, ws: seq<Worker>)
    requires forall x :: x in ws ==> f(x) == 0
    ensures Total(f, ws) == 0
  {
    if ws != [] {
      assert ws[0] in ws;
      TotalZero(f, ws[1..]);
    }
  }

  /** The result a worker still owes when nothing is cancelled. */
  function Owed(cfg: Config, c: Counter, x: Worker): int {
    if (x.Received? || x.Testing? || x.Sending?) && x.i < |cfg.channels| then At(Value(cfg, x.i), c) else 0
  }

  function TotalOwed(cfg: Config, c: Counter, ws: seq<Worker>): int {
    if ws == [] then 0 else Owed(cfg, c, ws[0]) + TotalOwed(cfg, c, ws[1..])
  }

  lemma {:induction false} OwedUpdate(cfg: Config, c: Counter, ws: seq<Worker>, w: nat, x: Worker)
    requires w < |ws|
    ensures TotalOwed(cfg, c, ws[w := x]) + Owed(cfg, c, ws[w]) == TotalOwed(cfg, c, ws) + Owed(cfg, c, x)
  {
    var ws' := ws[w := x];
    if w == 0 {
      assert ws'[1..] == ws[1..];
    } else {
      assert ws'[1..] == ws[1..][w - 1 := x];
      OwedUpdate(cfg, c, ws[1..], w - 1, x);
    }
  }

  lemma {:induction false} OwedZero(cfg: Config, c: Counter, ws: seq<Worker>)
    requires forall x :: x in ws ==> x.Waiting? || x.Exited?
    ensures TotalOwed(cfg, c, ws) == 0
  {
    if ws != [] {
      assert ws[0] in ws;
      OwedZero(cfg, c, ws[1..]);
    }
  }

  // ----- the invariant -----

  predicate Holding(x: Worker) {
    x.Received? || x.Testing? || x.Sending?
  }

  function Held(x: Worker): nat {
    if Holding(x) then 1 else 0
  }

  function InFlight(x: Worker): nat {
    if x.Testing? then 1 else 0
  }

  ghost predicate WorkerOk(cfg: Config, s: State, x: Worker) {
    && (Holding(x) ==> x.i < s.next && forall d :: 0 <= d < |s.delivered| ==> s.delivered[d].0 != x.i)
    && (x.Testing? ==> x.i < |cfg.channels| && !Skipped(cfg.channels[x.i]))
    && (x.Sending? ==> x.i < |cfg.channels| && (x.result == Value(cfg, x.i) || (s.cancelled && x.result == ZERO)))
    && (x.Exited? ==> s.jobsClosed || s.cancelled)
  }

  /** No two workers hold the same channel, and none holds a delivered one. */
  ghost predicate WorkersOk(cfg: Config, s: State) {
    && |s.workers| == WorkerCount(cfg)
    && (forall w :: 0 <= w < |s.workers| ==> WorkerOk(cfg, s, s.workers[w]))
    && (forall v, w :: 0 <= v < w < |s.workers| && Holding(s.workers[v]) && Holding(s.workers[w]) ==>
          s.workers[v].i != s.workers[w].i)
  }

  function SumDelivered(ds: seq<(nat, Summary)>, c: Counter): int {
    if ds == [] then 0 else SumDelivered(ds[..|ds| - 1], c) + At(ds[|ds| - 1].1, c)
  }

  /** The collector's totals are those of the delivered results. */
  ghost predicate TotalsOk(s: State) {
    && s.processed == |s.delivered|
    && (forall c :: At(s.summary, c) == SumDelivered(s.delivered, c))
  }

  ghost predicate DeliveryOk(cfg: Config, s: State, d: (nat, Summary)) {
    && d.0 < s.next
    && (d.0 < |cfg.channels| ==> d.1 == Value(cfg, d.0) || (s.cancelled && d.1 == ZERO))
  }

  /** A channel has one result, and it is that of its test unless the pool was cancelled. */
  ghost predicate DeliveriesOk(cfg: Config, s: State) {
    && (forall d :: 0 <= d < |s.delivered| ==> DeliveryOk(cfg, s, s.delivered[d]))
    && (forall d, e :: 0 <= d < e < |s.delivered| ==> s.delivered[d].0 != s.delivered[e].0)
  }

  /** Progress is reported as 0, 1, 2, ... without a gap until a cancellation. */
  ghost predicate ReportsOk(s: State) {
    && (forall j :: 0 <= j < |s.reports| ==> s.reports[j] == j)
    && 1 <= |s.reports| <= s.processed + 1
    && (!s.cancelled ==> |s.reports| == s.processed + if s.collector.Reporting? then 0 else 1)
  }

  /** Every dispatched channel is held or delivered, unless a cancelled worker dropped it. */
  ghost predicate Counted(cfg: Config, s: State) {
    && s.next <= |cfg.channels|
    && s.processed + Total(Held, s.workers) <= s.next
    && (!s.cancelled ==> s.processed + Total(Held, s.workers) == s.next)
  }

  /** What is collected, what is owed and what is still to come make up the whole. */
  ghost predicate Conserved(cfg: Config, s: State)
    requires s.next <= |cfg.channels|
  {
    !s.cancelled ==> forall c ::
      At(s.summary, c) + TotalOwed(cfg, c, s.workers) + SumLast(cfg, c, |cfg.channels| - s.next)
      == SumLast(cfg, c, |cfg.channels|)
  }

  ghost predicate ShutdownOk(cfg: Config, s: State) {
    && (s.jobsClosed ==> s.cancelled || s.next == |cfg.channels|)
    && (s.resultsClosed ==> AllExited(s.workers))
    && (s.collector.Returned? ==> s.resultsClosed)
  }

  ghost predicate Inv(cfg: Config, s: State) {
    WorkersOk(cfg, s) && TotalsOk(s) && DeliveriesOk(cfg, s) && ReportsOk(s)
    && Counted(cfg, s) && Conserved(cfg, s) && ShutdownOk(cfg, s)
  }

  lemma StartIsGood(cfg: Config)
    ensures Inv(cfg, Start(cfg))
  {
    var s := Start(cfg);
    assert forall x :: x in s.workers ==> x == Waiting;
    assert WorkersOk(cfg, s);
    assert TotalsOk(s) && DeliveriesOk(cfg, s) && ReportsOk(s) && ShutdownOk(cfg, s);
    TotalZero(Held, s.workers);
    forall c ensures TotalOwed(cfg, c, s.workers) == 0 { OwedZero(cfg, c, s.workers); }
  }

  /** Replacing one worker keeps the channels held apart, if the new one holds what
      the old one held or a channel that was just dispatched. */
  lemma ReplaceWorker(cfg: Config, s: State, t: State, w: nat, x: Worker)
    requires WorkersOk(cfg, s) && w < |s.workers|
    requires t.workers == s.workers[w := x]
    requires WorkerOk(cfg, t, x)
    requires forall v :: 0 <= v < |s.workers| && v != w ==> WorkerOk(cfg, t, s.workers[v])
    requires Holding(x) ==> (Holding(s.workers[w]) && s.workers[w].i == x.i) || x.i == s.next
    ensures WorkersOk(cfg, t)
  {
    forall v | 0 <= v < |s.workers| && Holding(s.workers[v])
      ensures s.workers[v].i < s.next
    {
      assert WorkerOk(cfg, s, s.workers[v]);
    }
  }

  lemma MoveKeepsWorkers(cfg: Config, s: State, w: nat, m: Move)
    requires WorkersOk(cfg, s) && s.next <= |cfg.channels| && Enabled(cfg, s, Work(w, m))
    requires DeliveriesOk(cfg, s)
    ensures WorkersOk(cfg, Next(cfg, s, Work(w, m)))
  {
    var x, t := s.workers[w], Next(cfg, s, Work(w, m));
    assert WorkerOk(cfg, s, x);
    assert forall d :: 0 <= d < |s.delivered| ==> DeliveryOk(cfg, s, s.delivered[d]);
    forall v | 0 <= v < |s.workers| && v != w
      ensures WorkerOk(cfg, t, s.workers[v])
    {
      assert WorkerOk(cfg, s, s.workers[v]);
      assert Holding(s.workers[v]) && m.Send? ==> s.workers[v].i != x.i;
    }
    ReplaceWorker(cfg, s, t, w, Moved(cfg, s, x, m));
  }

  lemma WorkersStep(cfg: Config, s: State, a: Action)
    requires WorkersOk(cfg, s) && s.next <= |cfg.channels| && Enabled(cfg, s, a)
    requires DeliveriesOk(cfg, s)
    ensures WorkersOk(cfg, Next(cfg, s, a))
  {
    if a.Work? {
      MoveKeepsWorkers(cfg, s, a.w, a.move);
    } else {
      forall w | 0 <= w < |s.workers|
        ensures WorkerOk(cfg, Next(cfg, s, a), s.workers[w])
      {
        assert WorkerOk(cfg, s, s.workers[w]);
      }
    }
  }

  lemma TotalsStep(cfg: Config, s: State, a: Action)
    requires TotalsOk(s) && Enabled(cfg, s, a)
    ensures TotalsOk(Next(cfg, s, a))
  {
    if a.Work? && a.move.Send? {
      var t := Next(cfg, s, a);
      assert t.delivered[..|t.delivered| - 1] == s.delivered;
    }
  }

  lemma DeliveriesStep(cfg: Config, s: State, a: Action)
    requires WorkersOk(cfg, s) && DeliveriesOk(cfg, s) && Enabled(cfg, s, a)
    ensures DeliveriesOk(cfg, Next(cfg, s, a))
  {
    var t := Next(cfg, s, a);
    forall d | 0 <= d < |s.delivered|
      ensures DeliveryOk(cfg, t, s.delivered[d])
    {
      assert DeliveryOk(cfg, s, s.delivered[d]);
    }
    if a.Work? && a.move.Send? {
      assert WorkerOk(cfg, s, s.workers[a.w]);
    }
  }

  lemma ReportsStep(cfg: Config, s: State, a: Action)
    requires ReportsOk(s) && Enabled(cfg, s, a)
    ensures ReportsOk(Next(cfg, s, a))
  {
  }

  lemma ShutdownStep(cfg: Config, s: State, a: Action)
    requires ShutdownOk(cfg, s) && s.next <= |cfg.channels| && Enabled(cfg, s, a)
    ensures ShutdownOk(cfg, Next(cfg, s, a))
  {
  }

  lemma CountedStep(cfg: Config, s: State, a: Action)
    requires WorkersOk(cfg, s) && Counted(cfg, s) && Enabled(cfg, s, a)
    ensures Counted(cfg, Next(cfg, s, a))
  {
    if a.Work? {
      TotalUpdate(Held, s.workers, a.w, Moved(cfg, s, s.workers[a.w], a.move));
    }
  }

  /** A move passes the value of a channel on: from the queue to a worker, from the
      worker to the summary, and never loses it. */
  lemma MoveConserves(cfg: Config, s: State, x: Worker, m: Move, c: Counter)
    requires WorkerOk(cfg, s, x) && !s.cancelled && s.next <= |cfg.channels| && MoveEnabled(cfg, s, x, m)
    ensures var t := Counterpart(s, x, m);
            && t.next <= |cfg.channels|
            && At(t.summary, c) + Owed(cfg, c, Moved(cfg, s, x, m)) + SumLast(cfg, c, |cfg.channels| - t.next)
               == At(s.summary, c) + Owed(cfg, c, x) + SumLast(cfg, c, |cfg.channels| - s.next)
  {
  }

  lemma ConservedStep(cfg: Config, s: State, a: Action)
    requires WorkersOk(cfg, s) && s.next <= |cfg.channels| && Conserved(cfg, s) && Enabled(cfg, s, a)
    ensures Next(cfg, s, a).next <= |cfg.channels| && Conserved(cfg, Next(cfg, s, a))
  {
    if a.Work? && !s.cancelled {
      var x, t := s.workers[a.w], Next(cfg, s, a);
      assert WorkerOk(cfg, s, x);
      forall c
        ensures t.next <= |cfg.channels|
        ensures At(t.summary, c) + TotalOwed(cfg, c, t.workers) + SumLast(cfg, c, |cfg.channels| - t.next)
                == SumLast(cfg, c, |cfg.channels|)
      {
        OwedUpdate(cfg, c, s.workers, a.w, Moved(cfg, s, x, a.move));
        MoveConserves(cfg, s, x, a.move, c);
      }
    }
  }

  lemma InvStep(cfg: Config, s: State, a: Action)
    requires Inv(cfg, s) && Enabled(cfg, s, a)
    ensures Inv(cfg, Next(cfg, s, a))
  {
    WorkersStep(cfg, s, a);
    TotalsStep(cfg, s, a);
    DeliveriesStep(cfg, s, a);
    ReportsStep(cfg, s, a);
    CountedStep(cfg, s, a);
    ConservedStep(cfg, s, a);
    ShutdownStep(cfg, s, a);
  }

  // ----- progress -----

  function Weight(x: Worker): nat {
    match x
    case Waiting => 1
    case Received(_) => 7
    case Testing(_) => 6
    case Sending(_, _) => 5
    case Pausing => 2
    case Exited => 0
  }

  /** What is left to do; every step of the pool makes it smaller. */
  ghost function Measure(cfg: Config, s: State): nat
    requires s.next <= |cfg.channels|
  {
    8 * (|cfg.channels| - s.next) + Total(Weight, s.workers)
    + (if s.cancelled then 0 else 1) + (if s.jobsClosed then 0 else 1) + (if s.resultsClosed then 0 else 1)
    + (match s.collector case Reporting => 2 case Collecting => 1 case Returned => 0)
  }

  lemma StepDecreases(cfg: Config, s: State, a: Action)
    requires s.next <= |cfg.channels| && Enabled(cfg, s, a)
    ensures Next(cfg, s, a).next <= |cfg.channels|
    ensures Measure(cfg, Next(cfg, s, a)) < Measure(cfg, s)
  {
    if a.Work? {
      TotalUpdate(Weight, s.workers, a.w, Moved(cfg, s, s.workers[a.w], a.move));
    }
  }

  /** A worker that has not exited can move, or waits for a dispatcher that can. */
  function WorkerAction(cfg: Config, s: State, w: nat): Action
    requires w < |s.workers|
  {
    match s.workers[w]
    case Waiting =>
      if s.jobsClosed then Work(w, End) else if s.next < |cfg.channels| then Work(w, Take) else DispatcherEnds
    case Received(_) => Work(w, Check)
    case Testing(_) => Work(w, Finish(false))
    case Sending(_, _) => Work(w, Send)
    case Pausing => Work(w, Resume)
    case Exited => CloseResults
  }

  lemma BusyWorkerCanAct(cfg: Config, s: State, w: nat)
    requires WorkersOk(cfg, s) && ShutdownOk(cfg, s) && s.next <= |cfg.channels|
    requires s.collector.Collecting? && w < |s.workers| && !s.workers[w].Exited?
    ensures Enabled(cfg, s, WorkerAction(cfg, s, w))
  {
    assert WorkerOk(cfg, s, s.workers[w]);
  }

  /** Without a cancellation, workers leave only after the last channel was dispatched. */
  lemma IdleDispatcherCanAct(cfg: Config, s: State)
    requires WorkersOk(cfg, s) && s.next <= |cfg.channels|
    requires AllExited(s.workers) && !s.jobsClosed
    ensures Enabled(cfg, s, if s.cancelled then DispatcherStops else DispatcherEnds)
  {
    if |s.workers| > 0 {
      assert WorkerOk(cfg, s, s.workers[0]);
    }
  }

  /** No reachable state is stuck, cancelled or not. */
  lemma NotStuck(cfg: Config, s: State) returns (a: Action)
    requires Inv(cfg, s) && !Terminated(s)
    ensures Enabled(cfg, s, a) && !a.Cancel?
  {
    if s.collector.Reporting? {
      a := Report;
    } else if !AllExited(s.workers) {
      var w: nat :| w < |s.workers| && !s.workers[w].Exited?;
      BusyWorkerCanAct(cfg, s, w);
      a := WorkerAction(cfg, s, w);
    } else if !s.jobsClosed {
      IdleDispatcherCanAct(cfg, s);
      a := if s.cancelled then DispatcherStops else DispatcherEnds;
    } else if !s.resultsClosed {
      a := CloseResults;
    } else {
      a := Return;
    }
  }

  // ----- whole runs -----

  ghost predicate IsRun(cfg: Config, s: State, actions: seq<Action>)
    decreases |actions|
  {
    actions == [] || (Enabled(cfg, s, actions[0]) && IsRun(cfg, Next(cfg, s, actions[0]), actions[1..]))
  }

  ghost function Final(cfg: Config, s: State, actions: seq<Action>): State
    requires IsRun(cfg, s, actions)
    decreases |actions|
  {
    if actions == [] then s else Final(cfg, Next(cfg, s, actions[0]), actions[1..])
  }

  /** Every run keeps the invariant and is no longer than the measure it started with. */
  lemma {:induction false} RunIsGood(cfg: Config, s: State, actions: seq<Action>)
    requires Inv(cfg, s) && IsRun(cfg, s, actions)
    ensures Inv(cfg, Final(cfg, s, actions))
    ensures |actions| + Measure(cfg, Final(cfg, s, actions)) <= Measure(cfg, s)
    decreases |actions|
  {
    if actions != [] {
      InvStep(cfg, s, actions[0]);
      StepDecreases(cfg, s, actions[0]);
      RunIsGood(cfg, Next(cfg, s, actions[0]), actions[1..]);
    }
  }

  lemma {:induction false} SumIsConsistent(ds: seq<(nat, Summary)>)
    requires forall d :: 0 <= d < |ds| ==> Consistent(ds[d].1)
    ensures Consistent(Summary(SumDelivered(ds, Tested), SumDelivered(ds, Succeeded), SumDelivered(ds, Failed),
                               SumDelivered(ds, Disabled), SumDelivered(ds, Counter.Enabled)))
  {
    if ds != [] {
      SumIsConsistent(ds[..|ds| - 1]);
      assert Consistent(ds[|ds| - 1].1);
    }
  }

  /** The facts a reader of the pool cares about. */
  ghost predicate SafeState(cfg: Config, s: State) {
    // each channel has produced at most one result
    && (forall d, e :: 0 <= d < e < |s.delivered| ==> s.delivered[d].0 != s.delivered[e].0)
    // tests in flight are bounded
    && Total(InFlight, s.workers) <= WorkerCount(cfg) <= NormalizeConcurrency(cfg.concurrency)
    // the summary is that of the delivered results, and it is consistent
    && (forall c :: At(s.summary, c) == SumDelivered(s.delivered, c)) && Consistent(s.summary)
    // progress rises by one, at most to the total
    && (forall j :: 0 <= j < |s.reports| ==> s.reports[j] == j)
    && |s.reports| <= s.processed + 1 <= |cfg.channels| + 1
  }

  lemma SummaryIsConsistent(s: State)
    requires TotalsOk(s)
    requires forall d :: 0 <= d < |s.delivered| ==> Consistent(s.delivered[d].1)
    ensures Consistent(s.summary)
  {
    SumIsConsistent(s.delivered);
    assert s.summary.tested == At(s.summary, Tested) && s.summary.succeeded == At(s.summary, Succeeded);
    assert s.summary.failed == At(s.summary, Failed) && s.summary.disabled == At(s.summary, Disabled);
    assert s.summary.enabled == At(s.summary, Counter.Enabled);
  }

  lemma InvIsSafe(cfg: Config, s: State)
    requires Inv(cfg, s)
    requires forall ch :: Consistent(cfg.run(ch))
    ensures SafeState(cfg, s)
  {
    TotalAtMost(InFlight, s.workers);
    forall d | 0 <= d < |s.delivered|
      ensures Consistent(s.delivered[d].1)
    {
      assert DeliveryOk(cfg, s, s.delivered[d]);
    }
    SummaryIsConsistent(s);
  }

  /** Safety of every reachable state, cancelled or not. */
  lemma ReachableIsSafe(cfg: Config, actions: seq<Action>)
    requires IsRun(cfg, Start(cfg), actions)
    requires forall ch :: Consistent(cfg.run(ch))
    ensures SafeState(cfg, Final(cfg, Start(cfg), actions))
  {
    StartIsGood(cfg);
    RunIsGood(cfg, Start(cfg), actions);
    InvIsSafe(cfg, Final(cfg, Start(cfg), actions));
  }

  /** The sum of one counter over the tests of the first n channels: those that are
      there and that nobody has disabled by hand. */
  function SumOfTests(cfg: Config, c: Counter, n: nat): int
    requires n <= |cfg.channels|
  {
    if n == 0 then 0
    else
      var ch := cfg.channels[n - 1];
      SumOfTests(cfg, c, n - 1) + if ch.Channel? && ch.status != MANUALLY_DISABLED then At(cfg.run(ch), c) else 0
  }

  lemma {:induction false} SumsMeet(cfg: Config, c: Counter, n: nat)
    requires n <= |cfg.channels|
    ensures SumOfTests(cfg, c, n) + SumLast(cfg, c, |cfg.channels| - n) == SumLast(cfg, c, |cfg.channels|)
  {
    if n > 0 {
      SumsMeet(cfg, c, n - 1);
      assert At(ZERO, c) == 0;
    }
  }

  /** A pool that was not cancelled ends with every channel processed and the sum
      of all tests, whatever the interleaving. */
  lemma UncancelledRunIsComplete(cfg: Config, actions: seq<Action>)
    requires IsRun(cfg, Start(cfg), actions)
    requires var s := Final(cfg, Start(cfg), actions); Terminated(s) && !s.cancelled
    ensures var s := Final(cfg, Start(cfg), actions);
            && s.processed == |cfg.channels|
            && (forall c :: At(s.summary, c) == SumOfTests(cfg, c, |cfg.channels|))
            && |s.reports| == |cfg.channels| + 1
  {
    StartIsGood(cfg);
    RunIsGood(cfg, Start(cfg), actions);
    var s := Final(cfg, Start(cfg), actions);
    TotalZero(Held, s.workers);
    forall c
      ensures TotalOwed(cfg, c, s.workers) == 0
      ensures SumLast(cfg, c, |cfg.channels|) == SumOfTests(cfg, c, |cfg.channels|)
    {
      OwedZero(cfg, c, s.workers);
      SumsMeet(cfg, c, |cfg.channels|);
    }
  }

  // ----- which channels are tested, and how often -----

  /** The step starts the test of channel i. */
  predicate StartsTest(cfg: Config, s: State, a: Action, i: nat)
    requires Enabled(cfg, s, a)
  {
    a.Work? && Next(cfg, s, a).workers[a.w] == Testing(i) && s.workers[a.w] != Testing(i)
  }

  /** How often a run starts the test of channel i. */
  ghost function TestsOf(cfg: Config, s: State, actions: seq<Action>, i: nat): nat
    requires IsRun(cfg, s, actions)
    decreases |actions|
  {
    if actions == [] then 0
    else
      (if StartsTest(cfg, s, actions[0], i) then 1 else 0)
      + TestsOf(cfg, Next(cfg, s, actions[0]), actions[1..], i)
  }

  /** Channel i can still be tested: it is not dispatched, or received and not looked at. */
  ghost predicate Untested(s: State, i: nat) {
    i >= s.next || Received(i) in s.workers
  }

  lemma HeldApart(cfg: Config, s: State, v: nat, w: nat)
    requires WorkersOk(cfg, s) && v < |s.workers| && w < |s.workers|
    requires Holding(s.workers[v]) && Holding(s.workers[w]) && s.workers[v].i == s.workers[w].i
    ensures v == w
  {
  }

  lemma MoveAndUntested(cfg: Config, s: State, w: nat, m: Move, i: nat)
    requires WorkersOk(cfg, s) && s.next <= |cfg.channels| && Enabled(cfg, s, Work(w, m)) && i < |cfg.channels|
    ensures var a := Work(w, m);
            var t := Next(cfg, s, a);
            && (Untested(t, i) ==> Untested(s, i))
            && (StartsTest(cfg, s, a, i) ==>
                  Untested(s, i) && !Untested(t, i) && !s.cancelled
                  && cfg.channels[i].Channel? && cfg.channels[i].status != MANUALLY_DISABLED)
            && (Untested(s, i) && !Untested(t, i) && !s.cancelled ==>
                  StartsTest(cfg, s, a, i) || cfg.channels[i].NoChannel?
                  || cfg.channels[i].status == MANUALLY_DISABLED)
  {
    var a, x := Work(w, m), s.workers[w];
    var t := Next(cfg, s, a);
    var y := Moved(cfg, s, x, m);
    assert t.workers == s.workers[w := y];
    assert WorkerOk(cfg, s, x);
    if Received(i) in t.workers {
      var v: nat :| v < |t.workers| && t.workers[v] == Received(i);
      assert v != w ==> s.workers[v] == Received(i);
      assert v == w ==> m.Take? && i == s.next;
    }
    if Received(i) in s.workers {
      var v: nat :| v < |s.workers| && s.workers[v] == Received(i);
      assert WorkerOk(cfg, s, s.workers[v]);
      if v != w {
        assert t.workers[v] == Received(i);
      }
    }
    if StartsTest(cfg, s, a, i) {
      assert x == Received(i) && s.workers[w] in s.workers;
      forall v | 0 <= v < |t.workers|
        ensures t.workers[v] != Received(i)
      {
        if s.workers[v] == Received(i) {
          HeldApart(cfg, s, v, w);
        }
      }
    }
    if i == s.next && m.Take? {
      assert t.workers[w] == Received(i);
    }
  }

  lemma StepAndUntested(cfg: Config, s: State, a: Action, i: nat)
    requires Inv(cfg, s) && Enabled(cfg, s, a) && i < |cfg.channels|
    ensures var t := Next(cfg, s, a);
            && (Untested(t, i) ==> Untested(s, i))
            && (StartsTest(cfg, s, a, i) ==>
                  Untested(s, i) && !Untested(t, i) && !s.cancelled
                  && cfg.channels[i].Channel? && cfg.channels[i].status != MANUALLY_DISABLED)
            && (Untested(s, i) && !Untested(t, i) && !s.cancelled ==>
                  StartsTest(cfg, s, a, i) || cfg.channels[i].NoChannel?
                  || cfg.channels[i].status == MANUALLY_DISABLED)
  {
    if a.Work? {
      MoveAndUntested(cfg, s, a.w, a.move, i);
    }
  }

  /** In every run, cancelled or not, a channel is tested at most once, and only one
      that is there and that nobody has disabled by hand. */
  lemma {:induction false} TestedAtMostOnce(cfg: Config, s: State, actions: seq<Action>, i: nat)
    requires Inv(cfg, s) && IsRun(cfg, s, actions) && i < |cfg.channels|
    ensures TestsOf(cfg, s, actions, i) <= if Untested(s, i) then 1 else 0
    ensures TestsOf(cfg, s, actions, i) > 0 ==>
      cfg.channels[i].Channel? && cfg.channels[i].status != MANUALLY_DISABLED
    decreases |actions|
  {
    if actions != [] {
      InvStep(cfg, s, actions[0]);
      StepAndUntested(cfg, s, actions[0], i);
      TestedAtMostOnce(cfg, Next(cfg, s, actions[0]), actions[1..], i);
    }
  }

  /** Progress is reported after every result, and no more once the pool is cancelled. */
  lemma ReportsFollow(cfg: Config, s: State, a: Action)
    requires Enabled(cfg, s, a)
    ensures Next(cfg, s, a).reports ==
            if a.Report? && !s.cancelled then s.reports + [s.processed] else s.reports
    ensures a.Work? && a.move.Send? ==> Next(cfg, s, a).collector.Reporting?
  {
  }

  /** No test starts once the pool is cancelled. */
  lemma NoTestAfterCancel(cfg: Config, s: State, a: Action, i: nat)
    requires Inv(cfg, s) && Enabled(cfg, s, a) && i < |cfg.channels| && s.cancelled
    ensures !StartsTest(cfg, s, a, i)
  {
    StepAndUntested(cfg, s, a, i);
  }

  lemma {:induction false} CancelledStays(cfg: Config, s: State, actions: seq<Action>)
    requires IsRun(cfg, s, actions) && s.cancelled
    ensures Final(cfg, s, actions).cancelled
    decreases |actions|
  {
    if actions != [] {
      CancelledStays(cfg, Next(cfg, s, actions[0]), actions[1..]);
    }
  }

  /** In a run that ends uncancelled, the tests of such a channel are those it had coming. */
  lemma {:induction false} TestsComeTrue(cfg: Config, s: State, actions: seq<Action>, i: nat)
    requires Inv(cfg, s) && IsRun(cfg, s, actions) && i < |cfg.channels|
    requires cfg.channels[i].Channel? && cfg.channels[i].status != MANUALLY_DISABLED
    requires Untested(s, i) && !Untested(Final(cfg, s, actions), i) && !Final(cfg, s, actions).cancelled
    ensures TestsOf(cfg, s, actions, i) == 1
    decreases |actions|
  {
    if s.cancelled {
      CancelledStays(cfg, s, actions);
    }
    if actions != [] {
      var t := Next(cfg, s, actions[0]);
      InvStep(cfg, s, actions[0]);
      StepAndUntested(cfg, s, actions[0], i);
      if Untested(t, i) {
        TestsComeTrue(cfg, t, actions[1..], i);
      } else {
        TestedAtMostOnce(cfg, t, actions[1..], i);
      }
    }
  }

  /** In every run from the start that ends uncancelled, exactly the channels that are
      there and that nobody has disabled by hand are tested, each once. */
  lemma EachTestedOnce(cfg: Config, actions: seq<Action>, i: nat)
    requires IsRun(cfg, Start(cfg), actions) && i < |cfg.channels|
    requires var s := Final(cfg, Start(cfg), actions); Terminated(s) && !s.cancelled
    ensures TestsOf(cfg, Start(cfg), actions, i) ==
            if cfg.channels[i].Channel? && cfg.channels[i].status != MANUALLY_DISABLED then 1 else 0
  {
    StartIsGood(cfg);
    RunIsGood(cfg, Start(cfg), actions);
    TestedAtMostOnce(cfg, Start(cfg), actions, i);
    if cfg.channels[i].Channel? && cfg.channels[i].status != MANUALLY_DISABLED {
      TestsComeTrue(cfg, Start(cfg), actions, i);
    }
  }

  lemma Prepend(cfg: Config, s: State, a: Action, rest: seq<Action>)
    requires Enabled(cfg, s, a) && IsRun(cfg, Next(cfg, s, a), rest)
    ensures IsRun(cfg, s, [a] + rest)
    ensures Final(cfg, s, [a] + rest) == Final(cfg, Next(cfg, s, a), rest)
  {
    assert ([a] + rest)[1..] == rest;
  }

  lemma StepIsGood(cfg: Config, s: State, a: Action)
    requires Inv(cfg, s) && Enabled(cfg, s, a)
    ensures Inv(cfg, Next(cfg, s, a))
    ensures Measure(cfg, Next(cfg, s, a)) < Measure(cfg, s)
    ensures Next(cfg, s, a).cancelled == (s.cancelled || a.Cancel?)
  {
    InvStep(cfg, s, a);
    StepDecreases(cfg, s, a);
  }

  lemma Advance(cfg: Config, s: State) returns (a: Action)
    requires Inv(cfg, s) && !Terminated(s)
    ensures Enabled(cfg, s, a)
    ensures Inv(cfg, Next(cfg, s, a)) && Next(cfg, s, a).cancelled == s.cancelled
    ensures Measure(cfg, Next(cfg, s, a)) < Measure(cfg, s)
  {
    a := NotStuck(cfg, s);
    StepIsGood(cfg, s, a);
  }

  /** From every reachable state the pool can run to its end without another cancellation. */
  lemma {:induction false} AlwaysCanFinish(cfg: Config, s: State) returns (actions: seq<Action>)
    requires Inv(cfg, s)
    ensures IsRun(cfg, s, actions) && Terminated(Final(cfg, s, actions))
    ensures Final(cfg, s, actions).cancelled == s.cancelled
    decreases Measure(cfg, s)
  {
    if Terminated(s) {
      return [];
    }
    var a := Advance(cfg, s);
    var rest := AlwaysCanFinish(cfg, Next(cfg, s, a));
    Prepend(cfg, s, a, rest);
    actions := [a] + rest;
  }
}
