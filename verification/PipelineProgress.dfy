/** Every turn of the pipeline that does not end in a wait uses up some of the work its start allows. */
module PipelineProgress {
  import opened Sums
  import opened BufferTurns
  import opened Pipelines

  function WorkOfProducer(p: Producer): int {
    (if p.next <= |p.tasks| then 5 * (|p.tasks| - p.next) else 0) + if p.done then 0 else 1
  }

  function WorkOfWorker(w: Worker): int {
    match w
    case Getting => 3
    case Putting(_) => 6
    case Quitting => 2
    case Leaving => 1
    case Gone => 0
  }

  function WorkOfConsumer(c: Consumer): int {
    match c
    case Asking => 2
    case Using(_) => 3
    case Stopping => 1
    case Stopped => 0
  }

  ghost function WorkOfProducers(ps: seq<Producer>): int {
    Sum(seq(|ps|, i requires 0 <= i < |ps| => WorkOfProducer(ps[i])))
  }

  ghost function WorkOfWorkers(ws: seq<Worker>): int {
    Sum(seq(|ws|, i requires 0 <= i < |ws| => WorkOfWorker(ws[i])))
  }

  ghost function WorkOfConsumers(cs: seq<Consumer>): int {
    Sum(seq(|cs|, i requires 0 <= i < |cs| => WorkOfConsumer(cs[i])))
  }

  /** A task costs five turns: put, get, put, get, use; the rest is for the threads to stop. */
  ghost function Work(s: Pipeline): int {
    WorkOfProducers(s.producers) + 4 * |s.b1.queue| + WorkOfWorkers(s.workers) +
    2 * |s.b2.queue| + WorkOfConsumers(s.consumers)
  }

  lemma ProducersUpdate(ps: seq<Producer>, i: int, p: Producer)
    requires 0 <= i < |ps|
    ensures WorkOfProducers(ps[i := p]) == WorkOfProducers(ps) - WorkOfProducer(ps[i]) + WorkOfProducer(p)
  {
    var ns := seq(|ps|, k requires 0 <= k < |ps| => WorkOfProducer(ps[k]));
    SumUpdate(ns, i, WorkOfProducer(p));
    assert ns[i := WorkOfProducer(p)] == seq(|ps|, k requires 0 <= k < |ps| => WorkOfProducer(ps[i := p][k]));
  }

  lemma WorkersUpdate(ws: seq<Worker>, i: int, w: Worker)
    requires 0 <= i < |ws|
    ensures WorkOfWorkers(ws[i := w]) == WorkOfWorkers(ws) - WorkOfWorker(ws[i]) + WorkOfWorker(w)
  {
    var ns := seq(|ws|, k requires 0 <= k < |ws| => WorkOfWorker(ws[k]));
    SumUpdate(ns, i, WorkOfWorker(w));
    assert ns[i := WorkOfWorker(w)] == seq(|ws|, k requires 0 <= k < |ws| => WorkOfWorker(ws[i := w][k]));
  }

  lemma ConsumersUpdate(cs: seq<Consumer>, i: int, c: Consumer)
    requires 0 <= i < |cs|
    ensures WorkOfConsumers(cs[i := c]) == WorkOfConsumers(cs) - WorkOfConsumer(cs[i]) + WorkOfConsumer(c)
  {
    var ns := seq(|cs|, k requires 0 <= k < |cs| => WorkOfConsumer(cs[k]));
    SumUpdate(ns, i, WorkOfConsumer(c));
    assert ns[i := WorkOfConsumer(c)] == seq(|cs|, k requires 0 <= k < |cs| => WorkOfConsumer(cs[i := c][k]));
  }

  lemma PartsNatural(ps: seq<Producer>, ws: seq<Worker>, cs: seq<Consumer>)
    ensures WorkOfProducers(ps) >= 0 && WorkOfWorkers(ws) >= 0 && WorkOfConsumers(cs) >= 0
  {
    SumZero(seq(|ps|, i requires 0 <= i < |ps| => WorkOfProducer(ps[i])));
    SumZero(seq(|ws|, i requires 0 <= i < |ws| => WorkOfWorker(ws[i])));
    SumZero(seq(|cs|, i requires 0 <= i < |cs| => WorkOfConsumer(cs[i])));
  }

  lemma WorkNatural(s: Pipeline)
    ensures Work(s) >= 0
  {
    PartsNatural(s.producers, s.workers, s.consumers);
  }

  ghost function Tasks(ps: seq<Producer>): int {
    Sum(seq(|ps|, i requires 0 <= i < |ps| => |ps[i].tasks|))
  }

  lemma {:induction false} SumOfWork(ps: seq<Producer>, ns: seq<int>, ms: seq<int>)
    requires |ns| == |ms| == |ps| && forall i :: 0 <= i < |ps| ==> ns[i] == |ps[i].tasks| && ms[i] == 5 * ns[i] + 1
    ensures Sum(ms) == 5 * Sum(ns) + |ps|
    decreases |ps|
  {
    if |ps| > 0 {
      var k := |ps| - 1;
      SumOfWork(ps[..k], ns[..k], ms[..k]);
    }
  }

  lemma {:induction false} SumOfEqual(ns: seq<int>, n: int)
    requires forall i :: 0 <= i < |ns| ==> ns[i] == n
    ensures Sum(ns) == n * |ns|
    decreases |ns|
  {
    if |ns| > 0 {
      SumOfEqual(ns[..|ns| - 1], n);
    }
  }

  /** At the start: five turns a task, one a producer, three a worker and two a consumer. */
  lemma StartWork(s: Pipeline, size1: nat, size2: nat)
    requires Starts(s, size1, size2)
    ensures Work(s) == 5 * Tasks(s.producers) + |s.producers| + 3 * |s.workers| + 2 * |s.consumers|
  {
    var ps, ws, cs := s.producers, s.workers, s.consumers;
    SumOfWork(ps, seq(|ps|, i requires 0 <= i < |ps| => |ps[i].tasks|),
        seq(|ps|, i requires 0 <= i < |ps| => WorkOfProducer(ps[i])));
    SumOfEqual(seq(|ws|, i requires 0 <= i < |ws| => WorkOfWorker(ws[i])), 3);
    SumOfEqual(seq(|cs|, i requires 0 <= i < |cs| => WorkOfConsumer(cs[i])), 2);
  }

  /** The turn ends in a wait. */
  ghost predicate WaitingTurn(s: Pipeline, i: int, r: Outcome<int>, s': Pipeline) {
    r == Waits && (ProducerPuts(s, i, r, s') || WorkerGets(s, i, r, s') || WorkerPuts(s, i, r, s')
        || ConsumerGets(s, i, r, s'))
  }

  ghost predicate Waiting(s: Pipeline, s': Pipeline) {
    exists i, r :: WaitingTurn(s, i, r, s')
  }

  lemma WaitingKeepsWork(s: Pipeline, i: int, r: Outcome<int>, s': Pipeline)
    requires WaitingTurn(s, i, r, s')
    ensures Work(s') == Work(s)
  {
  }

  lemma ProducerWorks(s: Pipeline, i: int, r: Outcome<int>, s': Pipeline)
    requires (ProducerPuts(s, i, r, s') && r.Pushed?) || ProducerQuits(s, i, r, s')
    ensures Work(s') < Work(s)
  {
    ProducersUpdate(s.producers, i, s'.producers[i]);
    assert s'.producers == s.producers[i := s'.producers[i]];
  }

  lemma WorkerWorks(s: Pipeline, i: int, r: Outcome<int>, s': Pipeline)
    requires (WorkerGets(s, i, r, s') || WorkerPuts(s, i, r, s') || WorkerQuits(s, i, r, s')
        || WorkerLeaves(s, i, r, s')) && r != Waits
    ensures Work(s') < Work(s)
  {
    WorkersUpdate(s.workers, i, s'.workers[i]);
    assert s'.workers == s.workers[i := s'.workers[i]];
  }

  lemma ConsumerWorks(s: Pipeline, i: int, r: Outcome<int>, s': Pipeline)
    requires (ConsumerGets(s, i, r, s') && r != Waits) || ConsumerUses(s, i, s') || ConsumerQuits(s, i, r, s')
    ensures Work(s') < Work(s)
  {
    ConsumersUpdate(s.consumers, i, s'.consumers[i]);
    assert s'.consumers == s.consumers[i := s'.consumers[i]];
  }

  lemma NoPutFails(s: Pipeline, i: int, r: Outcome<int>, s': Pipeline)
    requires Invariant(s) && Invariant(s') && ProducerPuts(s, i, r, s')
    ensures r == Waits || r.Pushed?
  {
  }

  lemma StepWork(s: Pipeline, s': Pipeline)
    requires Invariant(s) && Invariant(s') && Next(s, s')
    ensures Work(s') <= Work(s) && (Waiting(s, s') || Work(s') < Work(s))
  {
    hide Invariant, Work;
    var i, r :| StepOf(s, i, r, s');
    if WaitingTurn(s, i, r, s') {
      WaitingKeepsWork(s, i, r, s');
    } else if ProducerPuts(s, i, r, s') {
      NoPutFails(s, i, r, s');
      ProducerWorks(s, i, r, s');
    } else if ProducerQuits(s, i, r, s') {
      ProducerWorks(s, i, r, s');
    } else if ConsumerGets(s, i, r, s') || ConsumerUses(s, i, s') || ConsumerQuits(s, i, r, s') {
      ConsumerWorks(s, i, r, s');
    } else {
      WorkerWorks(s, i, r, s');
    }
  }

  /** The number of steps among the first n that do not end in a wait. */
  ghost function Working(states: seq<Pipeline>, n: nat): nat
    requires n < |states|
  {
    if n == 0 then 0 else Working(states, n - 1) + if Waiting(states[n - 1], states[n]) then 0 else 1
  }

  lemma RunStepWork(states: seq<Pipeline>, size1: nat, size2: nat, k: nat)
    requires IsRun(states, size1, size2) && k + 1 < |states|
    ensures var s, s' := states[k], states[k + 1]; Work(s') <= Work(s) && (Waiting(s, s') || Work(s') < Work(s))
  {
    hide Work, Invariant, Waiting, Next, Starts;
    RunKeeps(states, size1, size2, k);
    RunKeeps(states, size1, size2, k + 1);
    StepWork(states[k], states[k + 1]);
  }

  /** Whatever the schedule, only so many steps of a run do not end in a wait. */
  lemma {:induction false} WorkingSteps(states: seq<Pipeline>, size1: nat, size2: nat, n: nat)
    requires IsRun(states, size1, size2) && n < |states|
    ensures Working(states, n) <= Work(states[0]) - Work(states[n])
    decreases n
  {
    if n > 0 {
      hide IsRun, Work, Waiting;
      WorkingSteps(states, size1, size2, n - 1);
      RunStepWork(states, size1, size2, n - 1);
    }
  }

  /** A run has at most that many steps that do not end in a wait, whatever the schedule. */
  lemma BoundedWork(states: seq<Pipeline>, size1: nat, size2: nat, n: nat)
    requires IsRun(states, size1, size2) && n < |states|
    ensures var s := states[0];
            Working(states, n) <= 5 * Tasks(s.producers) + |s.producers| + 3 * |s.workers| + 2 * |s.consumers|
  {
    WorkingSteps(states, size1, size2, n);
    WorkNatural(states[n]);
    StartWork(states[0], size1, size2);
  }

  // ----- Every run can be continued to its end -----

  lemma AwakeStepWorks(s: Pipeline, i: int, r: Outcome<int>, s': Pipeline)
    requires Invariant(s) && Invariant(s') && AwakeStep(s, i, r, s')
    ensures Work(s') < Work(s)
  {
    hide Invariant, Work;
    if ProducerPuts(s, i, r, s') {
      NoPutFails(s, i, r, s');
      ProducerWorks(s, i, r, s');
    } else if ProducerQuits(s, i, r, s') {
      ProducerWorks(s, i, r, s');
    } else if ConsumerGets(s, i, r, s') || ConsumerUses(s, i, s') || ConsumerQuits(s, i, r, s') {
      ConsumerWorks(s, i, r, s');
    } else {
      WorkerWorks(s, i, r, s');
    }
  }

  lemma SomeStepWorks(s: Pipeline) returns (s': Pipeline)
    requires Invariant(s) && !Finished(s)
    ensures Next(s, s') && Invariant(s') && Work(s') < Work(s)
  {
    hide Invariant, Work, Finished;
    NotStuck(s);
    var i, r, next :| AwakeStep(s, i, r, next);
    s' := next;
    assert StepOf(s, i, r, s');
    StepKeeps(s, s');
    AwakeStepWorks(s, i, r, s');
  }

  lemma {:induction false} CanFinish(s: Pipeline) returns (run: seq<Pipeline>)
    requires Invariant(s)
    ensures |run| > 0 && run[0] == s && Finished(run[|run| - 1]) && |run| - 1 <= Work(s)
    ensures forall n :: 0 <= n < |run| - 1 ==> Next(run[n], run[n + 1])
    decreases Work(s)
  {
    hide Invariant, Work, Finished, Next;
    WorkNatural(s);
    if Finished(s) {
      run := [s];
    } else {
      var s' := SomeStepWorks(s);
      var rest := CanFinish(s');
      run := [s] + rest;
    }
  }

  /** Every run can be continued until all threads have finished, in no more steps than its start has work. */
  lemma EveryRunCanFinish(states: seq<Pipeline>, size1: nat, size2: nat) returns (more: seq<Pipeline>)
    requires IsRun(states, size1, size2)
    ensures IsRun(states + more, size1, size2) && Finished((states + more)[|states + more| - 1])
    ensures |more| <= Work(states[0])
  {
    hide Invariant, Work, Finished, Next, Starts;
    var last := |states| - 1;
    RunKeeps(states, size1, size2, last);
    WorkingSteps(states, size1, size2, last);
    var run := CanFinish(states[last]);
    more := run[1..];
    var all := states + more;
    forall n | 0 <= n < |all| - 1
      ensures Next(all[n], all[n + 1])
    {
      if n >= last {
        assert all[n] == run[n - last] && all[n + 1] == run[n - last + 1];
        assert Next(run[n - last], run[n - last + 1]);
      } else {
        assert Next(states[n], states[n + 1]);
      }
    }
  }
}
