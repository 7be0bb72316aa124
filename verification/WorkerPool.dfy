/** The bounded worker pool that runs channel health checks.

    A producer, `w` workers, a closer and one reducer share two unbuffered channels and a
    cancellable context. Every goroutine is a program counter; a rendezvous on an unbuffered
    channel is one step that moves both sides. `Step` lists everything that can happen next,
    so a run is a sequence of steps and "every interleaving and every cancellation point" is
    "every run".
 */
module WorkerPool {

  const MAX_CONCURRENCY := 32
  const DEFAULT_CONCURRENCY := 1

  datatype Summary = Summary(tested: int, succeeded: int, failed: int, disabled: int, enabled: int)

  predicate IsZero(s: Summary) {
    s.tested == 0 && s.succeeded == 0 && s.failed == 0 && s.disabled == 0 && s.enabled == 0
  }

  function Plus(a: Summary, b: Summary): Summary {
    Summary(a.tested + b.tested, a.succeeded + b.succeeded, a.failed + b.failed,
            a.disabled + b.disabled, a.enabled + b.enabled)
  }

  /** What the totals of any number of health checks satisfy. */
  predicate Balanced(s: Summary) {
    && 0 <= s.succeeded && 0 <= s.failed && 0 <= s.disabled && 0 <= s.enabled
    && s.tested == s.succeeded + s.failed
    && s.disabled <= s.failed
    && s.disabled + s.enabled <= s.tested
  }

  // ---------------------------------------------------------------------------
  // One health check: counter logic of a single channel
  // ---------------------------------------------------------------------------

  const STATUS_ENABLED := 1
  const STATUS_AUTO_DISABLED := 3

  /** Everything the check observes: the probe's outcome and the settings it consults. */
  datatype Probe = Probe(
    status: int,                // the channel's status before the test
    autoBan: bool,
    hasApiError: bool,          // the provider call returned an error
    errorDisables: bool,        // that error is one that disables channels
    hasLocalError: bool,        // the test could not be built
    slow: bool,                 // response time above the threshold
    autoDisableOn: bool,
    autoEnableOn: bool,
    cancelledDuringTest: bool)

  /** Increments the counters of one channel test. A cancelled test counts nothing; a channel is
      disabled only by a failure and enabled only by a success. */
  method HealthCheck(p: Probe, allowDisable: bool) returns (s: Summary)
    ensures Balanced(s) && s.tested <= 1
    ensures s.tested == 0 <==> p.cancelledDuringTest
    ensures s.failed == 1 <==> !p.cancelledDuringTest && (p.hasApiError || (p.autoDisableOn && p.slow))
    ensures s.disabled == 1 <==> (&& !p.cancelledDuringTest && p.status == STATUS_ENABLED && allowDisable && p.autoBan
                                  && ((p.hasApiError && p.errorDisables) || (p.autoDisableOn && p.slow)))
    ensures s.enabled == 1 <==> (&& p.status == STATUS_AUTO_DISABLED && p.autoEnableOn
                                 && !p.hasLocalError && s.succeeded == 1)
  {
    s := Summary(0, 0, 0, 0, 0);
    if p.cancelledDuringTest {
      return;
    }
    s := s.(tested := s.tested + 1);
    var failed := p.hasApiError;
    var shouldBan := p.hasApiError && p.errorDisables;
    if p.autoDisableOn && !shouldBan && p.slow {
      failed := true;
      shouldBan := true;
    }
    if failed {
      s := s.(failed := s.failed + 1);
    } else {
      s := s.(succeeded := s.succeeded + 1);
    }
    if allowDisable && p.status == STATUS_ENABLED && shouldBan && p.autoBan {
      s := s.(disabled := s.disabled + 1);
    }
    if !p.hasLocalError && p.status != STATUS_ENABLED
       && p.autoEnableOn && !failed && p.status == STATUS_AUTO_DISABLED {
      s := s.(enabled := s.enabled + 1);
    }
  }

  // ---------------------------------------------------------------------------
  // The pool
  // ---------------------------------------------------------------------------

  /** How many workers are started: the configured concurrency, clamped, and never more than
      there are channels. */
  function WorkerCount(concurrency: int, total: nat): int {
    var normalized :=
      if concurrency < 1 then DEFAULT_CONCURRENCY
      else if concurrency > MAX_CONCURRENCY then MAX_CONCURRENCY
      else concurrency;
    if normalized < total then normalized else total
  }

  datatype Worker =
    | Idle                                   // waiting for a job or for cancellation
    | Got(job: nat)                          // received a job, about to look at the context
    | Running(job: nat)                      // inside the test callback
    | Offering(job: nat, result: Summary)    // blocked sending its result
    | Pausing                                // between two jobs
    | Stopped                                // returned

  datatype Reducer = Receiving | Reporting | Returned

  /** `ran`, `contribution`, `reduced` and `dropped` are history: no step reads them. */
  datatype Pool = Pool(
    runnable: seq<bool>,        // per channel: present and not manually disabled
    next: nat,                  // producer: next channel to send
    jobsClosed: bool,
    workers: seq<Worker>,
    resultsClosed: bool,
    reducer: Reducer,
    summary: Summary,
    processed: nat,
    reports: seq<nat>,
    cancelled: bool,
    ran: seq<nat>,
    contribution: seq<Summary>, // what each channel added to the summary
    reduced: set<nat>,
    dropped: set<nat>)

  function Init(runnable: seq<bool>, workerCount: nat): Pool {
    Pool(runnable, 0, false, seq(workerCount, _ => Idle), false, Receiving, Summary(0, 0, 0, 0, 0), 0, [0], false,
         [], seq(|runnable|, _ => Summary(0, 0, 0, 0, 0)), {}, {})
  }

  datatype Step =
    | Hand(w: nat)                       // rendezvous on jobs
    | ProducerStop                       // all sent, or cancelled; closes jobs
    | WorkerStop(w: nat)
    | Begin(w: nat)                      // context still alive: start the test, or skip it
    | Finish(w: nat, result: Summary)    // the callback returns
    | Deliver(w: nat)                    // rendezvous on results
    | Report                             // progress callback, silent once cancelled
    | Resume(w: nat)
    | CloseResults
    | Return
    | Cancel

  predicate Enabled(s: Pool, t: Step) {
    match t
    case Hand(w) => w < |s.workers| && s.workers[w].Idle? && !s.jobsClosed && s.next < |s.runnable|
    case ProducerStop => !s.jobsClosed && (s.next == |s.runnable| || s.cancelled)
    case WorkerStop(w) =>
      && w < |s.workers|
      && match s.workers[w] {
           case Idle => s.cancelled || s.jobsClosed
           case Got(_) => s.cancelled
           case Pausing => s.cancelled
           case _ => false
         }
    case Begin(w) => w < |s.workers| && s.workers[w].Got? && !s.cancelled
    case Finish(w, r) => w < |s.workers| && s.workers[w].Running? && Balanced(r)
    case Deliver(w) => w < |s.workers| && s.workers[w].Offering? && s.reducer.Receiving?
    case Report => s.reducer.Reporting?
    case Resume(w) => w < |s.workers| && s.workers[w].Pausing?
    case CloseResults => !s.resultsClosed && AllStopped(s.workers)
    case Return => s.reducer.Receiving? && s.resultsClosed
    case Cancel => !s.cancelled
  }

  function Apply(s: Pool, t: Step): (s': Pool)
    requires Enabled(s, t)
  {
    match t
    case Hand(w) => s.(next := s.next + 1, workers := s.workers[w := Got(s.next)])
    case ProducerStop => s.(jobsClosed := true)
    case WorkerStop(w) =>
      var s' := s.(workers := s.workers[w := Stopped]);
      if s.workers[w].Got? then s'.(dropped := s.dropped + {s.workers[w].job}) else s'
    case Begin(w) =>
      var j := s.workers[w].job;
      if Runs(s.runnable, j)
      then s.(workers := s.workers[w := Running(j)], ran := s.ran + [j])
      else s.(workers := s.workers[w := Offering(j, Summary(0, 0, 0, 0, 0))])
    case Finish(w, r) => s.(workers := s.workers[w := Offering(s.workers[w].job, r)])
    case Deliver(w) =>
      var Offering(j, r) := s.workers[w];
      s.(workers := s.workers[w := Pausing], reducer := Reporting, summary := Plus(s.summary, r),
         processed := s.processed + 1, reduced := s.reduced + {j},
         contribution := if j < |s.contribution| then s.contribution[j := r] else s.contribution)
    case Report =>
      s.(reducer := Receiving, reports := if s.cancelled then s.reports else s.reports + [s.processed])
    case Resume(w) => s.(workers := s.workers[w := Idle])
    case CloseResults => s.(resultsClosed := true)
    case Return => s.(reducer := Returned)
    case Cancel => s.(cancelled := true)
  }

  /** A run: every step is enabled where it is taken. */
  ghost predicate IsRun(s: Pool, steps: seq<Step>)
    decreases |steps|
  {
    steps == [] || (Enabled(s, steps[0]) && IsRun(Apply(s, steps[0]), steps[1..]))
  }

  ghost function After(s: Pool, steps: seq<Step>): Pool
    requires IsRun(s, steps)
    decreases |steps|
  {
    if steps == [] then s else After(Apply(s, steps[0]), steps[1..])
  }

  predicate Final(s: Pool) {
    s.jobsClosed && s.resultsClosed && s.reducer.Returned? && AllStopped(s.workers)
  }

  // ---------------------------------------------------------------------------
  // Where each channel is
  // ---------------------------------------------------------------------------

  /** The channel a worker is holding, or -1. */
  function JobOf(k: Worker): int {
    match k
    case Got(j) => j
    case Running(j) => j
    case Offering(j, _) => j
    case _ => -1
  }

  ghost predicate InFlight(q: seq<Worker>, j: int) {
    exists w :: 0 <= w < |q| && JobOf(q[w]) == j
  }

  /** Sent channels are held by exactly one worker, or reduced, or dropped. */
  ghost predicate Partitioned(q: seq<Worker>, next: nat, reduced: set<nat>, dropped: set<nat>) {
    && reduced !! dropped
    && (forall j :: j in reduced || j in dropped ==> j < next)
    && (forall w :: 0 <= w < |q| ==> JobOf(q[w]) < next)
    && (forall w :: 0 <= w < |q| ==> JobOf(q[w]) !in reduced + dropped)
    && (forall v, w :: 0 <= v < w < |q| && JobOf(q[v]) >= 0 ==> JobOf(q[v]) != JobOf(q[w]))
    && (forall j: nat {:trigger InFlight(q, j)} :: j < next ==> j in reduced || j in dropped || InFlight(q, j))
  }

  predicate AllStopped(q: seq<Worker>) {
    forall w :: 0 <= w < |q| ==> q[w].Stopped?
  }

  predicate SomeStopped(q: seq<Worker>) {
    exists w :: 0 <= w < |q| && q[w].Stopped?
  }

  predicate Lifecycle(s: Pool) {
    && s.next <= |s.runnable|
    && (s.jobsClosed ==> s.next == |s.runnable| || s.cancelled)
    && (s.dropped != {} ==> s.cancelled)
    && (SomeStopped(s.workers) ==> s.jobsClosed || s.cancelled)
    && (s.resultsClosed ==> AllStopped(s.workers))
    && (s.reducer.Returned? ==> s.resultsClosed)
  }

  /** The sum over a list of summaries. */
  function Total(q: seq<Summary>): Summary {
    if q == [] then Summary(0, 0, 0, 0, 0) else Plus(q[0], Total(q[1..]))
  }

  predicate Runs(runnable: seq<bool>, j: nat) {
    j < |runnable| && runnable[j]
  }

  /** A result a channel may contribute: balanced, and nothing at all if it was skipped. */
  predicate Admissible(runnable: seq<bool>, j: nat, r: Summary) {
    Balanced(r) && (j < |runnable| && !runnable[j] ==> IsZero(r))
  }

  ghost predicate Outcomes(runnable: seq<bool>, q: seq<Worker>) {
    && (forall w :: 0 <= w < |q| && q[w].Offering? ==> Admissible(runnable, q[w].job, q[w].result))
    && (forall w :: 0 <= w < |q| && q[w].Running? ==> Runs(runnable, q[w].job))
  }

  /** The running totals are those of the recorded contributions, one per reduced channel. */
  ghost predicate Tallied(runnable: seq<bool>, summary: Summary, processed: nat, c: seq<Summary>, reduced: set<nat>) {
    && |c| == |runnable|
    && (forall j :: 0 <= j < |c| ==> Admissible(runnable, j, c[j]))
    && (forall j: nat {:trigger j in reduced} :: j < |c| && j !in reduced ==> IsZero(c[j]))
    && summary == Total(c)
    && processed == |reduced|
  }

  /** The reports so far are 0, 1, ..., k. */
  predicate Contiguous(q: seq<nat>) {
    forall a :: 0 <= a < |q| ==> q[a] == a
  }

  predicate Reports(s: Pool) {
    && Contiguous(s.reports)
    && 1 <= |s.reports| <= (if s.reducer.Reporting? then s.processed else s.processed + 1)
    && (!s.cancelled ==> |s.reports| == if s.reducer.Reporting? then s.processed else s.processed + 1)
  }

  ghost predicate Distinct(q: seq<nat>) {
    forall a, b :: 0 <= a < b < |q| ==> q[a] != q[b]
  }

  /** The callback has been entered for j and its result not yet reduced. */
  ghost predicate Entered(q: seq<Worker>, j: int) {
    exists w :: 0 <= w < |q| && EnteredBy(q[w], j)
  }

  /** The callback was entered exactly once for each runnable channel that got past `Got`. */
  ghost predicate RanOnce(runnable: seq<bool>, q: seq<Worker>, ran: seq<nat>, reduced: set<nat>) {
    && Distinct(ran)
    && (forall j: nat {:trigger j in ran} {:trigger Entered(q, j)} ::
         j in ran <==> Runs(runnable, j) && (j in reduced || Entered(q, j)))
  }

  ghost predicate Control(s: Pool) {
    Partitioned(s.workers, s.next, s.reduced, s.dropped) && Lifecycle(s)
  }

  ghost predicate Accounts(s: Pool) {
    && Outcomes(s.runnable, s.workers)
    && Tallied(s.runnable, s.summary, s.processed, s.contribution, s.reduced)
    && Reports(s)
  }

  ghost predicate Inv(s: Pool) {
    Control(s) && Accounts(s) && RanOnce(s.runnable, s.workers, s.ran, s.reduced)
  }

  // ---------------------------------------------------------------------------
  // The invariant
  // ---------------------------------------------------------------------------

  /** Replacing an empty contribution adds exactly the new one to the total. */
  lemma {:induction false} TotalUpdate(q: seq<Summary>, j: nat, r: Summary)
    requires j < |q| && IsZero(q[j])
    ensures Total(q[j := r]) == Plus(Total(q), r)
  {
    var q' := q[j := r];
    assert Total(q') == Plus(q'[0], Total(q'[1..]));
    assert Total(q) == Plus(q[0], Total(q[1..]));
    if j == 0 {
      assert q'[1..] == q[1..];
    } else {
      assert q'[1..] == q[1..][j - 1 := r];
      assert IsZero(q[1..][j - 1]);
      TotalUpdate(q[1..], j - 1, r);
    }
  }

  lemma {:induction false} TotalBalanced(q: seq<Summary>)
    requires forall j :: 0 <= j < |q| ==> Balanced(q[j])
    ensures Balanced(Total(q))
  {
    if q != [] {
      assert Balanced(q[0]);
      TotalBalanced(q[1..]);
    }
  }

  lemma {:induction false} TotalOfZeros(q: seq<Summary>)
    requires forall j :: 0 <= j < |q| ==> IsZero(q[j])
    ensures IsZero(Total(q))
  {
    if q != [] {
      assert IsZero(q[0]);
      TotalOfZeros(q[1..]);
    }
  }

  lemma InitInv(runnable: seq<bool>, workerCount: nat)
    ensures Inv(Init(runnable, workerCount))
  {
    hide Lifecycle, Partitioned, Outcomes, Tallied, Reports, RanOnce;
    InitControl(runnable, workerCount);
    InitAccounts(runnable, workerCount);
  }

  lemma InitControl(runnable: seq<bool>, workerCount: nat)
    ensures
      var s := Init(runnable, workerCount);
      Lifecycle(s) && Partitioned(s.workers, s.next, s.reduced, s.dropped) && RanOnce(s.runnable, s.workers, s.ran, s.reduced)
  {
    var q := Init(runnable, workerCount).workers;
    assert forall w :: 0 <= w < |q| ==> q[w] == Idle;
  }

  lemma InitAccounts(runnable: seq<bool>, workerCount: nat)
    ensures
      var s := Init(runnable, workerCount);
      Outcomes(s.runnable, s.workers) && Tallied(s.runnable, s.summary, s.processed, s.contribution, s.reduced) && Reports(s)
  {
    hide Total, Plus;
    var s := Init(runnable, workerCount);
    var c := s.contribution;
    assert forall j :: 0 <= j < |c| ==> IsZero(c[j]);
    TotalOfZeros(c);
    assert forall w :: 0 <= w < |s.workers| ==> s.workers[w] == Idle;
  }

  /** A worker moves without taking or giving up a channel. */
  lemma MoveInPlace(q: seq<Worker>, w: nat, k: Worker, next: nat, reduced: set<nat>, dropped: set<nat>)
    requires Partitioned(q, next, reduced, dropped) && w < |q| && JobOf(k) == JobOf(q[w])
    ensures Partitioned(q[w := k], next, reduced, dropped)
  {
    var q' := q[w := k];
    assert forall v :: 0 <= v < |q| ==> JobOf(q'[v]) == JobOf(q[v]);
    forall j | InFlight(q, j) ensures InFlight(q', j) {
      var v :| 0 <= v < |q| && JobOf(q[v]) == j;
      assert JobOf(q'[v]) == j;
    }
  }

  /** An idle worker takes the next channel. */
  lemma MoveTakes(q: seq<Worker>, w: nat, next: nat, reduced: set<nat>, dropped: set<nat>)
    requires Partitioned(q, next, reduced, dropped) && w < |q| && q[w].Idle?
    ensures Partitioned(q[w := Got(next)], next + 1, reduced, dropped)
  {
    var q' := q[w := Got(next)];
    forall j: nat | j < next + 1 ensures j in reduced || j in dropped || InFlight(q', j) {
      if j == next {
        assert JobOf(q'[w]) == j;
      } else if InFlight(q, j) {
        var v :| 0 <= v < |q| && JobOf(q[v]) == j;
        assert JobOf(q'[v]) == j;
      }
    }
  }

  /** A worker gives up its channel, which is then reduced or dropped. */
  lemma MoveGives(q: seq<Worker>, w: nat, k: Worker, next: nat, reduced: set<nat>, dropped: set<nat>,
                  reduced': set<nat>, dropped': set<nat>)
    requires Partitioned(q, next, reduced, dropped) && w < |q| && JobOf(k) == -1 && JobOf(q[w]) >= 0
    requires
      || (reduced' == reduced + {JobOf(q[w])} && dropped' == dropped)
      || (reduced' == reduced && dropped' == dropped + {JobOf(q[w])})
    ensures Partitioned(q[w := k], next, reduced', dropped')
  {
    var q' := q[w := k];
    forall j: nat | j < next ensures j in reduced' || j in dropped' || InFlight(q', j) {
      if j !in reduced' && j !in dropped' {
        assert InFlight(q, j);
        var v :| 0 <= v < |q| && JobOf(q[v]) == j;
        assert JobOf(q'[v]) == j;
      }
    }
  }

  lemma StepKeepsPartition(s: Pool, t: Step)
    requires Partitioned(s.workers, s.next, s.reduced, s.dropped) && Enabled(s, t)
    ensures Partitioned(Apply(s, t).workers, Apply(s, t).next, Apply(s, t).reduced, Apply(s, t).dropped)
  {
    var s' := Apply(s, t);
    match t
    case Hand(w) => MoveTakes(s.workers, w, s.next, s.reduced, s.dropped);
    case WorkerStop(w) =>
      if s.workers[w].Got? {
        MoveGives(s.workers, w, Stopped, s.next, s.reduced, s.dropped, s'.reduced, s'.dropped);
      } else {
        MoveInPlace(s.workers, w, Stopped, s.next, s.reduced, s.dropped);
      }
    case Begin(w) => MoveInPlace(s.workers, w, s'.workers[w], s.next, s.reduced, s.dropped);
    case Finish(w, _) => MoveInPlace(s.workers, w, s'.workers[w], s.next, s.reduced, s.dropped);
    case Deliver(w) =>
      MoveGives(s.workers, w, Pausing, s.next, s.reduced, s.dropped, s'.reduced, s'.dropped);
    case Resume(w) => MoveInPlace(s.workers, w, Idle, s.next, s.reduced, s.dropped);
    case _ =>
  }

  lemma StepKeepsLifecycle(s: Pool, t: Step)
    requires Lifecycle(s) && Enabled(s, t)
    ensures Lifecycle(Apply(s, t))
  {
    var s' := Apply(s, t);
    if SomeStopped(s'.workers) && !t.WorkerStop? {
      var w :| 0 <= w < |s'.workers| && s'.workers[w].Stopped?;
      assert s.workers[w].Stopped?;
    }
  }

  lemma MoveKeepsOutcomes(runnable: seq<bool>, q: seq<Worker>, w: nat, k: Worker)
    requires Outcomes(runnable, q) && w < |q|
    requires k.Offering? ==> Admissible(runnable, k.job, k.result)
    requires k.Running? ==> Runs(runnable, k.job)
    ensures Outcomes(runnable, q[w := k])
  {
  }

  lemma StepKeepsOutcomes(s: Pool, t: Step)
    requires Outcomes(s.runnable, s.workers) && Enabled(s, t)
    ensures Outcomes(s.runnable, Apply(s, t).workers)
  {
    match t
    case Hand(w) => MoveKeepsOutcomes(s.runnable, s.workers, w, Got(s.next));
    case WorkerStop(w) => MoveKeepsOutcomes(s.runnable, s.workers, w, Stopped);
    case Begin(w) => MoveKeepsOutcomes(s.runnable, s.workers, w, Apply(s, t).workers[w]);
    case Finish(w, r) => MoveKeepsOutcomes(s.runnable, s.workers, w, Offering(s.workers[w].job, r));
    case Deliver(w) => MoveKeepsOutcomes(s.runnable, s.workers, w, Pausing);
    case Resume(w) => MoveKeepsOutcomes(s.runnable, s.workers, w, Idle);
    case _ =>
  }

  lemma TallyOne(runnable: seq<bool>, summary: Summary, processed: nat, c: seq<Summary>, reduced: set<nat>,
                 j: nat, r: Summary)
    requires Tallied(runnable, summary, processed, c, reduced) && j !in reduced && j < |runnable|
    requires Admissible(runnable, j, r)
    ensures |c| == |runnable| && Tallied(runnable, Plus(summary, r), processed + 1, c[j := r], reduced + {j})
  {
    hide Total, Plus, Admissible, IsZero;
    assert IsZero(c[j]);
    TotalUpdate(c, j, r);
  }

  lemma DeliverKeepsTally(s: Pool, w: nat)
    requires Enabled(s, Deliver(w)) && Control(s) && Outcomes(s.runnable, s.workers)
    requires Tallied(s.runnable, s.summary, s.processed, s.contribution, s.reduced)
    ensures
      var s' := Apply(s, Deliver(w));
      Tallied(s'.runnable, s'.summary, s'.processed, s'.contribution, s'.reduced)
  {
    hide Total, Plus, Tallied, Admissible;
    var j := s.workers[w].job;
    assert JobOf(s.workers[w]) == j;
    TallyOne(s.runnable, s.summary, s.processed, s.contribution, s.reduced, j, s.workers[w].result);
  }

  lemma StepKeepsTally(s: Pool, t: Step)
    requires Enabled(s, t) && Control(s) && Outcomes(s.runnable, s.workers)
    requires Tallied(s.runnable, s.summary, s.processed, s.contribution, s.reduced)
    ensures
      var s' := Apply(s, t);
      Tallied(s'.runnable, s'.summary, s'.processed, s'.contribution, s'.reduced)
  {
    hide Tallied, Control, Outcomes;
    if t.Deliver? {
      DeliverKeepsTally(s, t.w);
    }
  }

  lemma StepKeepsReports(s: Pool, t: Step)
    requires Reports(s) && Enabled(s, t)
    ensures Reports(Apply(s, t))
  {
  }

  predicate EnteredBy(k: Worker, j: int) {
    JobOf(k) == j && !k.Got?
  }

  lemma MoveKeepsEntered(q: seq<Worker>, w: nat, k: Worker, j: int)
    requires w < |q| && EnteredBy(q[w], j) == EnteredBy(k, j)
    ensures Entered(q, j) <==> Entered(q[w := k], j)
  {
    var q' := q[w := k];
    if Entered(q, j) {
      var v :| 0 <= v < |q| && EnteredBy(q[v], j);
      assert EnteredBy(q'[v], j);
    }
    if Entered(q', j) {
      var v :| 0 <= v < |q| && EnteredBy(q'[v], j);
      assert EnteredBy(q[v], j);
    }
  }

  lemma DeliverKeepsEntered(q: seq<Worker>, w: nat, j: nat, reduced: set<nat>)
    requires w < |q| && q[w].Offering?
    ensures (j in reduced || Entered(q, j)) <==> (j in reduced + {q[w].job} || Entered(q[w := Pausing], j))
  {
    if j == q[w].job {
      assert EnteredBy(q[w], j);
    } else {
      MoveKeepsEntered(q, w, Pausing, j);
    }
  }

  /** Which channels have entered the callback changes only for the one that begins. */
  lemma StepKeepsEntered(s: Pool, t: Step, j: nat)
    requires Enabled(s, t) && (t.Begin? ==> s.workers[t.w].job != j)
    ensures (j in s.reduced || Entered(s.workers, j)) <==> (j in Apply(s, t).reduced || Entered(Apply(s, t).workers, j))
  {
    hide Entered;
    match t
    case Hand(w) => MoveKeepsEntered(s.workers, w, Got(s.next), j);
    case WorkerStop(w) => MoveKeepsEntered(s.workers, w, Stopped, j);
    case Begin(w) => MoveKeepsEntered(s.workers, w, Apply(s, t).workers[w], j);
    case Finish(w, r) => MoveKeepsEntered(s.workers, w, Offering(s.workers[w].job, r), j);
    case Deliver(w) => DeliverKeepsEntered(s.workers, w, j, s.reduced);
    case Resume(w) => MoveKeepsEntered(s.workers, w, Idle, j);
    case _ =>
  }

  lemma BeginEnters(s: Pool, w: nat)
    requires Partitioned(s.workers, s.next, s.reduced, s.dropped) && Enabled(s, Begin(w))
    ensures !Entered(s.workers, s.workers[w].job) && s.workers[w].job !in s.reduced
    ensures Entered(Apply(s, Begin(w)).workers, s.workers[w].job)
  {
    var j := s.workers[w].job;
    assert JobOf(s.workers[w]) == j;
    var s' := Apply(s, Begin(w));
    assert EnteredBy(s'.workers[w], j);
    if Entered(s.workers, j) {
      assert false;
    }
  }

  lemma StepKeepsRanOnce(s: Pool, t: Step)
    requires Partitioned(s.workers, s.next, s.reduced, s.dropped) && Enabled(s, t)
    requires RanOnce(s.runnable, s.workers, s.ran, s.reduced)
    ensures RanOnce(s.runnable, Apply(s, t).workers, Apply(s, t).ran, Apply(s, t).reduced)
  {
    var s' := Apply(s, t);
    if t.Begin? { BeginEnters(s, t.w); }
    forall j: nat
      ensures j in s'.ran <==> Runs(s.runnable, j) && (j in s'.reduced || Entered(s'.workers, j))
    {
      if !t.Begin? || s.workers[t.w].job != j {
        StepKeepsEntered(s, t, j);
      }
    }
  }

  lemma StepKeepsControl(s: Pool, t: Step)
    requires Control(s) && Enabled(s, t)
    ensures Control(Apply(s, t))
  {
    hide Partitioned, Lifecycle, Apply, Enabled;
    StepKeepsPartition(s, t);
    StepKeepsLifecycle(s, t);
  }

  lemma StepKeepsAccounts(s: Pool, t: Step)
    requires Control(s) && Accounts(s) && Enabled(s, t)
    ensures Accounts(Apply(s, t))
  {
    StepFrame(s, t);
    StepKeepsOutcomes(s, t);
    StepKeepsTally(s, t);
    StepKeepsReports(s, t);
    hide Outcomes, Reports, Tallied, Apply, Enabled, Control;
  }

  lemma StepFrame(s: Pool, t: Step)
    requires Enabled(s, t)
    ensures Apply(s, t).runnable == s.runnable && |Apply(s, t).workers| == |s.workers|
  {
  }

  lemma StepKeepsInv(s: Pool, t: Step)
    requires Inv(s) && Enabled(s, t)
    ensures Inv(Apply(s, t))
  {
    StepFrame(s, t);
    StepKeepsControl(s, t);
    StepKeepsAccounts(s, t);
    StepKeepsRanOnce(s, t);
    hide Control, Accounts, RanOnce, Apply, Enabled;
  }

  /** What every run keeps, whatever the interleaving and wherever it is cancelled. */
  lemma {:induction false} RunKeepsInv(s: Pool, steps: seq<Step>)
    requires Inv(s) && IsRun(s, steps)
    ensures Inv(After(s, steps))
    ensures After(s, steps).runnable == s.runnable && |After(s, steps).workers| == |s.workers|
    decreases |steps|
  {
    if steps != [] {
      StepFrame(s, steps[0]);
      StepKeepsInv(s, steps[0]);
      RunKeepsInv(Apply(s, steps[0]), steps[1..]);
    }
  }

  // ---------------------------------------------------------------------------
  // Termination and progress
  // ---------------------------------------------------------------------------

  function Weight(k: Worker): nat {
    match k
    case Stopped => 0
    case Idle => 1
    case Pausing => 2
    case Offering(_, _) => 4
    case Running(_) => 5
    case Got(_) => 6
  }

  function Weights(q: seq<Worker>): nat {
    if q == [] then 0 else Weight(q[0]) + Weights(q[1..])
  }

  /** An upper bound on the number of steps still to come. */
  function Measure(s: Pool): int {
    6 * (|s.runnable| - s.next) + Weights(s.workers)
    + (if s.jobsClosed then 0 else 1)
    + (if s.resultsClosed then 0 else 1)
    + (match s.reducer case Returned => 0 case Receiving => 1 case Reporting => 2)
    + (if s.cancelled then 0 else 1)
  }

  lemma {:induction false} WeightsUpdate(q: seq<Worker>, w: nat, k: Worker)
    requires w < |q|
    ensures Weights(q[w := k]) == Weights(q) - Weight(q[w]) + Weight(k)
  {
    if w == 0 {
      assert q[w := k][1..] == q[1..];
    } else {
      assert q[w := k][1..] == q[1..][w - 1 := k];
      WeightsUpdate(q[1..], w - 1, k);
    }
  }

  /** Every step, cancellation included, lowers the measure. */
  lemma StepDescends(s: Pool, t: Step)
    requires Enabled(s, t)
    ensures Measure(Apply(s, t)) < Measure(s)
  {
    hide Weights;
    match t
    case Hand(w) => WeightsUpdate(s.workers, w, Got(s.next));
    case WorkerStop(w) => WeightsUpdate(s.workers, w, Stopped);
    case Begin(w) => WeightsUpdate(s.workers, w, Apply(s, t).workers[w]);
    case Finish(w, r) => WeightsUpdate(s.workers, w, Offering(s.workers[w].job, r));
    case Deliver(w) => WeightsUpdate(s.workers, w, Pausing);
    case Resume(w) => WeightsUpdate(s.workers, w, Idle);
    case _ =>
  }

  lemma {:induction false} RunDescends(s: Pool, steps: seq<Step>)
    requires IsRun(s, steps)
    ensures |steps| + Measure(After(s, steps)) <= Measure(s)
    decreases |steps|
  {
    if steps != [] {
      StepDescends(s, steps[0]);
      RunDescends(Apply(s, steps[0]), steps[1..]);
    }
  }

  /** A step other than cancellation that a non-final state can take. */
  lemma Progress(s: Pool) returns (t: Step)
    requires Lifecycle(s) && |s.workers| >= 1 && !Final(s)
    ensures !t.Cancel? && Enabled(s, t)
  {
    if s.reducer.Reporting? {
      return Report;
    }
    if w :| 0 <= w < |s.workers| && !s.workers[w].Stopped? && !s.workers[w].Idle? {
      match s.workers[w]
      case Got(_) => t := if s.cancelled then WorkerStop(w) else Begin(w);
      case Running(_) => t := Finish(w, Summary(0, 0, 0, 0, 0));
      case Offering(_, _) => t := Deliver(w);
      case Pausing => t := Resume(w);
    } else if w :| 0 <= w < |s.workers| && s.workers[w].Idle? {
      t := if s.jobsClosed then WorkerStop(w)
           else if s.next < |s.runnable| then Hand(w)
           else ProducerStop;
    } else if !s.resultsClosed {
      t := CloseResults;
    } else if s.reducer.Receiving? {
      t := Return;
    } else {
      assert s.workers[0].Stopped?;
      t := ProducerStop;
    }
  }

  // ---------------------------------------------------------------------------
  // Main results
  // ---------------------------------------------------------------------------

  /** The places a channel can be: not sent yet, held by a worker, reduced, dropped. */
  ghost function Places(s: Pool, j: nat): seq<bool> {
    [s.next <= j, InFlight(s.workers, j), j in s.reduced, j in s.dropped]
  }

  lemma OnePlace(s: Pool, j: nat)
    requires Inv(s)
    ensures exists a :: 0 <= a < 4 && Places(s, j)[a] && forall b :: 0 <= b < 4 && b != a ==> !Places(s, j)[b]
    ensures j in s.dropped ==> s.cancelled
  {
    hide RanOnce, Accounts, InFlight;
    FlyingElsewhere(s.workers, s.next, s.reduced, s.dropped, j);
    var places := Places(s, j);
    var a := if j in s.reduced then 2 else if j in s.dropped then 3 else if s.next <= j then 0 else 1;
    assert places[0] == (s.next <= j) && places[1] == InFlight(s.workers, j);
    assert places[2] == (j in s.reduced) && places[3] == (j in s.dropped);
    assert places[a] && forall b :: 0 <= b < 4 && b != a ==> !places[b];
  }

  /** A channel is held by a worker iff it was sent and is neither reduced nor dropped. */
  lemma FlyingElsewhere(q: seq<Worker>, next: nat, reduced: set<nat>, dropped: set<nat>, j: nat)
    requires Partitioned(q, next, reduced, dropped)
    ensures InFlight(q, j) <==> j < next && j !in reduced && j !in dropped
  {
    if InFlight(q, j) {
      var w :| 0 <= w < |q| && JobOf(q[w]) == j;
    }
  }

  /** At every point of every run each channel is in exactly one place. */
  lemma EachChannelInOnePlace(runnable: seq<bool>, workerCount: nat, steps: seq<Step>, j: nat)
    requires IsRun(Init(runnable, workerCount), steps)
    ensures
      var s := After(Init(runnable, workerCount), steps);
      && (exists a :: 0 <= a < 4 && Places(s, j)[a] && forall b :: 0 <= b < 4 && b != a ==> !Places(s, j)[b])
      && (j in s.dropped ==> s.cancelled)
  {
    InitInv(runnable, workerCount);
    RunKeepsInv(Init(runnable, workerCount), steps);
    OnePlace(After(Init(runnable, workerCount), steps), j);
  }

  // ---------------------------------------------------------------------------
  // The summary is what the callbacks returned
  // ---------------------------------------------------------------------------

  /** The sum of what the callbacks of a run returned. */
  function ReturnedBy(steps: seq<Step>): Summary {
    if steps == [] then Summary(0, 0, 0, 0, 0)
    else if steps[0].Finish? then Plus(steps[0].result, ReturnedBy(steps[1..]))
    else ReturnedBy(steps[1..])
  }

  /** The sum of the results that workers are blocked sending. */
  function OnOffer(q: seq<Worker>): Summary {
    if q == [] then Summary(0, 0, 0, 0, 0)
    else if q[0].Offering? then Plus(q[0].result, OnOffer(q[1..]))
    else OnOffer(q[1..])
  }

  lemma PlusCommutes(a: Summary, b: Summary)
    ensures Plus(a, b) == Plus(b, a)
  {
  }

  lemma PlusAssociates(a: Summary, b: Summary, c: Summary)
    ensures Plus(Plus(a, b), c) == Plus(a, Plus(b, c))
  {
  }

  lemma PlusNothing(a: Summary)
    ensures Plus(a, Summary(0, 0, 0, 0, 0)) == a
  {
  }

  /** A worker that starts to offer a result adds it. */
  lemma {:induction false} StartOffer(q: seq<Worker>, w: nat, j: nat, r: Summary)
    requires w < |q| && !q[w].Offering?
    ensures OnOffer(q[w := Offering(j, r)]) == Plus(OnOffer(q), r)
  {
    hide Plus;
    var q' := q[w := Offering(j, r)];
    if w == 0 {
      assert q'[1..] == q[1..];
      PlusCommutes(r, OnOffer(q[1..]));
    } else {
      assert q'[1..] == q[1..][w - 1 := Offering(j, r)];
      StartOffer(q[1..], w - 1, j, r);
      if q[0].Offering? { PlusAssociates(q[0].result, OnOffer(q[1..]), r); }
    }
  }

  /** A worker that moves without offering changes nothing. */
  lemma {:induction false} NoOffer(q: seq<Worker>, w: nat, k: Worker)
    requires w < |q| && !q[w].Offering? && !k.Offering?
    ensures OnOffer(q[w := k]) == OnOffer(q)
  {
    hide Plus;
    if w == 0 {
      assert q[w := k][1..] == q[1..];
    } else {
      assert q[w := k][1..] == q[1..][w - 1 := k];
      NoOffer(q[1..], w - 1, k);
    }
  }

  /** The summary together with what is on offer. */
  function Collected(s: Pool): Summary {
    Plus(s.summary, OnOffer(s.workers))
  }

  lemma Delivered(s: Pool, w: nat)
    requires Enabled(s, Deliver(w))
    ensures Collected(Apply(s, Deliver(w))) == Collected(s)
  {
    hide OnOffer, Plus;
    var s' := Apply(s, Deliver(w));
    var j, r := s.workers[w].job, s.workers[w].result;
    assert s'.workers[w := Offering(j, r)] == s.workers;
    StartOffer(s'.workers, w, j, r);
    PlusAssociates(s.summary, r, OnOffer(s'.workers));
    PlusCommutes(r, OnOffer(s'.workers));
  }

  /** Only a callback that returns changes what is summed or on offer, and it adds its result. */
  lemma StepReturns(s: Pool, t: Step)
    requires Enabled(s, t)
    ensures Collected(Apply(s, t)) == if t.Finish? then Plus(Collected(s), t.result) else Collected(s)
  {
    hide OnOffer, Plus;
    var s' := Apply(s, t);
    match t
    case Hand(w) => NoOffer(s.workers, w, s'.workers[w]);
    case WorkerStop(w) => NoOffer(s.workers, w, Stopped);
    case Begin(w) =>
      if Runs(s.runnable, s.workers[w].job) {
        NoOffer(s.workers, w, s'.workers[w]);
      } else {
        StartOffer(s.workers, w, s.workers[w].job, Summary(0, 0, 0, 0, 0));
        PlusNothing(OnOffer(s.workers));
      }
    case Finish(w, r) =>
      StartOffer(s.workers, w, s.workers[w].job, r);
      PlusAssociates(s.summary, OnOffer(s.workers), r);
    case Deliver(w) => Delivered(s, w);
    case Resume(w) => NoOffer(s.workers, w, Idle);
    case _ =>
  }

  lemma {:induction false} RunReturns(s: Pool, steps: seq<Step>)
    requires IsRun(s, steps)
    ensures Collected(After(s, steps)) == Plus(Collected(s), ReturnedBy(steps))
    decreases |steps|
  {
    hide Enabled, Apply, Collected, Plus;
    if steps == [] {
      PlusNothing(Collected(s));
    } else {
      StepReturns(s, steps[0]);
      RunReturns(Apply(s, steps[0]), steps[1..]);
      if steps[0].Finish? { PlusAssociates(Collected(s), steps[0].result, ReturnedBy(steps[1..])); }
    }
  }

  lemma {:induction false} NothingOnOffer(q: seq<Worker>)
    requires forall w :: 0 <= w < |q| ==> !q[w].Offering?
    ensures OnOffer(q) == Summary(0, 0, 0, 0, 0)
  {
    hide Plus;
    if q != [] { NothingOnOffer(q[1..]); }
  }

  /** At every point of every run the summary, together with the results that workers are still sending,
      is the sum of what the callbacks returned; once the pool is final it is exactly that sum,
      cancelled or not. */
  lemma SummaryIsWhatCallbacksReturned(runnable: seq<bool>, workerCount: nat, steps: seq<Step>)
    requires IsRun(Init(runnable, workerCount), steps)
    ensures
      var s := After(Init(runnable, workerCount), steps);
      && Plus(s.summary, OnOffer(s.workers)) == ReturnedBy(steps)
      && (Final(s) ==> s.summary == ReturnedBy(steps))
  {
    hide OnOffer, ReturnedBy, After, Plus;
    var i := Init(runnable, workerCount);
    var s := After(i, steps);
    RunReturns(i, steps);
    NothingOnOffer(i.workers);
    PlusNothing(i.summary);
    PlusCommutes(i.summary, ReturnedBy(steps));
    PlusNothing(ReturnedBy(steps));
    if Final(s) {
      NothingOnOffer(s.workers);
      PlusNothing(s.summary);
    }
  }

  /** How many workers there are: one when the configured concurrency is below one, at most thirty-two, and
      otherwise as many as configured, but never more than there are channels. */
  lemma WorkerCountIs(concurrency: int, total: nat)
    ensures concurrency < 1 && total >= 1 ==> WorkerCount(concurrency, total) == 1
    ensures 1 <= concurrency <= 32 && concurrency <= total ==> WorkerCount(concurrency, total) == concurrency
    ensures 32 < concurrency && 32 <= total ==> WorkerCount(concurrency, total) == 32
    ensures total <= 32 && total <= concurrency ==> WorkerCount(concurrency, total) == total
    ensures total == 0 ==> WorkerCount(concurrency, total) == 0
  {
  }

  /** The workers inside the test callback. */
  ghost function Overlapping(q: seq<Worker>): set<nat> {
    set w: nat | w < |q| && q[w].Running?
  }

  lemma {:induction false} SubsetOfRange(q: set<nat>, n: nat)
    requires forall j :: j in q ==> j < n
    ensures |q| <= n
    decreases n
  {
    if n == 0 {
      assert q == {};
    } else {
      SubsetOfRange(q - {n - 1}, n - 1);
      assert n - 1 in q ==> q == (q - {n - 1}) + {n - 1};
      assert n - 1 !in q ==> q == q - {n - 1};
    }
  }

  lemma {:induction false} IdleWeights(q: seq<Worker>)
    requires forall w :: 0 <= w < |q| ==> q[w] == Idle
    ensures Weights(q) == |q|
  {
    if q != [] { IdleWeights(q[1..]); }
  }

  /** No run is longer than six steps per channel, one per worker and four: with terminating
      callbacks the pool always stops. */
  lemma EveryRunIsBounded(runnable: seq<bool>, workerCount: nat, steps: seq<Step>)
    requires IsRun(Init(runnable, workerCount), steps)
    ensures |steps| <= 6 * |runnable| + workerCount + 4
  {
    var i := Init(runnable, workerCount);
    InitInv(runnable, workerCount);
    RunKeepsInv(i, steps);
    RunDescends(i, steps);
    IdleWeights(i.workers);
  }

  /** What an observer sees at any point: at most as many callbacks inside as workers, progress
      reported without gaps, and totals that are the balanced sum of what each
      reduced channel contributed. */
  ghost predicate Observable(s: Pool) {
    && |Overlapping(s.workers)| <= |s.workers| <= MAX_CONCURRENCY
    && Contiguous(s.reports) && 1 <= |s.reports| <= |s.runnable| + 1
    && Balanced(s.summary)
    && |s.contribution| == |s.runnable| && s.summary == Total(s.contribution)
    && (forall j: nat {:trigger j in s.reduced} :: j < |s.contribution| && j !in s.reduced ==> IsZero(s.contribution[j]))
    && Distinct(s.ran)
  }

  lemma InvIsObservable(s: Pool)
    requires Inv(s) && |s.workers| <= MAX_CONCURRENCY
    ensures Observable(s)
  {
    hide Total;
    SubsetOfRange(Overlapping(s.workers), |s.workers|);
    forall j | 0 <= j < |s.contribution| ensures Balanced(s.contribution[j]) {
      assert Admissible(s.runnable, j, s.contribution[j]);
    }
    TotalBalanced(s.contribution);
    SubsetOfRange(s.reduced, |s.runnable|);
  }

  /** For any configured concurrency, at every point of every run. */
  lemma EveryPointIsObservable(runnable: seq<bool>, concurrency: int, steps: seq<Step>)
    requires runnable != []
    requires IsRun(Init(runnable, WorkerCount(concurrency, |runnable|)), steps)
    ensures 1 <= WorkerCount(concurrency, |runnable|) <= |runnable|
    ensures Observable(After(Init(runnable, WorkerCount(concurrency, |runnable|)), steps))
  {
    var i := Init(runnable, WorkerCount(concurrency, |runnable|));
    InitInv(runnable, WorkerCount(concurrency, |runnable|));
    RunKeepsInv(i, steps);
    InvIsObservable(After(i, steps));
  }

  lemma {:induction false} FullRange(q: set<nat>, n: nat)
    requires forall j: nat :: j in q <==> j < n
    ensures |q| == n
  {
    if n == 0 {
      assert q == {};
    } else {
      FullRange(q - {n - 1}, n - 1);
    }
  }

  lemma NothingInFlight(q: seq<Worker>, j: nat)
    requires AllStopped(q)
    ensures !InFlight(q, j) && !Entered(q, j)
  {
  }

  lemma FinalUncancelled(s: Pool)
    requires Inv(s) && Final(s) && !s.cancelled
    ensures forall j: nat :: j in s.reduced <==> j < |s.runnable|
    ensures s.dropped == {}
    ensures Distinct(s.ran) && (forall j: nat :: j in s.ran <==> Runs(s.runnable, j))
    ensures |s.reports| == |s.runnable| + 1
  {
    hide Total, Plus, Admissible, IsZero;
    forall j: nat ensures j in s.reduced <==> j < |s.runnable| {
      hide RanOnce, Accounts, AllStopped;
      NothingInFlight(s.workers, j);
    }
    forall j: nat ensures j in s.ran <==> Runs(s.runnable, j) {
      hide Control, Accounts, AllStopped;
      NothingInFlight(s.workers, j);
    }
    hide Partitioned, RanOnce, Outcomes, AllStopped;
    FullRange(s.reduced, |s.runnable|);
  }

  /** No deadlock and clean shutdown: a run that cannot go on, cancellation aside, has closed both
      channels, stopped every worker and returned; if it was never cancelled, every channel was
      reduced once, exactly the runnable ones were run, once each, the summary is the sum over all
      channels and progress was reported for 0, 1, ..., total. Cancelled or not, the summary is the sum
      of what the callbacks returned. */
  lemma MaximalRunsFinish(runnable: seq<bool>, concurrency: int, steps: seq<Step>)
    requires runnable != []
    requires IsRun(Init(runnable, WorkerCount(concurrency, |runnable|)), steps)
    requires
      var s := After(Init(runnable, WorkerCount(concurrency, |runnable|)), steps);
      forall t: Step :: !t.Cancel? ==> !Enabled(s, t)
    ensures
      var s := After(Init(runnable, WorkerCount(concurrency, |runnable|)), steps);
      && Final(s)
      && (!s.cancelled ==>
           && (forall j: nat :: j in s.reduced <==> j < |runnable|)
           && s.dropped == {}
           && Distinct(s.ran) && (forall j: nat :: j in s.ran <==> Runs(runnable, j))
           && s.summary == Total(s.contribution) && |s.contribution| == |runnable|
           && |s.reports| == |runnable| + 1 && Contiguous(s.reports))
      && s.summary == ReturnedBy(steps)
  {
    hide ReturnedBy, OnOffer, Plus, Total, Apply, IsRun, After, Partitioned, Lifecycle, Outcomes, RanOnce;
    var w := WorkerCount(concurrency, |runnable|);
    InitInv(runnable, w);
    RunKeepsInv(Init(runnable, w), steps);
    SummaryIsWhatCallbacksReturned(runnable, w, steps);
    var s := After(Init(runnable, w), steps);
    if !Final(s) {
      var t := Progress(s);
      assert false;
    }
    if !s.cancelled {
      FinalUncancelled(s);
    }
  }
}
