/**
 The pipelined scheduler: producers, workers and consumers around two bounded buffers. Each step is
 one turn of one thread under the mutex of one buffer, in any order the machine likes. Tasks are
 handles; what they point to is of no concern to the scheduler.
 */
module Pipelines {
  import opened IndexSets
  import opened Sums
  import opened BufferTurns

  /** A producer puts its tasks one by one and then reports that it is done. */
  datatype Producer = Producer(tasks: seq<int>, next: nat, done: bool)

  /** WorkerDone takes two turns: it quits the first buffer (Quitting) and then the second (Leaving). */
  datatype Worker = Getting | Putting(task: int) | Quitting | Leaving | Gone

  datatype Consumer = Asking | Using(task: int) | Stopping | Stopped

  datatype Pipeline = Pipeline(b1: Buffer<int>, b2: Buffer<int>,
    producers: seq<Producer>, workers: seq<Worker>, consumers: seq<Consumer>,
    consumed: seq<int>, assertFailed: bool)

  ghost predicate Starts(s: Pipeline, size1: nat, size2: nat) {
    && |s.producers| > 0 && |s.workers| > 0 && |s.consumers| > 0 && size1 > 0 && size2 > 0
    && s.b1 == NewBuffer(size1, |s.producers|, |s.workers|)
    && s.b2 == NewBuffer(size2, |s.workers|, |s.consumers|)
    && (forall i :: 0 <= i < |s.producers| ==> s.producers[i].next == 0 && !s.producers[i].done)
    && (forall i :: 0 <= i < |s.workers| ==> s.workers[i] == Getting)
    && (forall i :: 0 <= i < |s.consumers| ==> s.consumers[i] == Asking)
    && s.consumed == [] && !s.assertFailed
  }

  // ----- Steps -----

  ghost predicate ProducerPuts(s: Pipeline, i: int, r: Outcome<int>, s': Pipeline) {
    && 0 <= i < |s.producers| && !s.producers[i].done && s.producers[i].next < |s.producers[i].tasks|
    && PushTurn(s.b1, i, s.producers[i].tasks[s.producers[i].next], s'.b1, r)
    && s' == s.(b1 := s'.b1,
                producers := if r.Pushed? then s.producers[i := s.producers[i].(next := s.producers[i].next + 1)]
                    else s.producers,
                assertFailed := s.assertFailed || r.Returns?)
  }

  ghost predicate ProducerQuits(s: Pipeline, i: int, r: Outcome<int>, s': Pipeline) {
    && 0 <= i < |s.producers| && !s.producers[i].done && s.producers[i].next >= |s.producers[i].tasks|
    && ProducerQuitTurn(s.b1, s'.b1, r)
    && s' == s.(b1 := s'.b1, producers := s.producers[i := s.producers[i].(done := true)],
                assertFailed := s.assertFailed || r != Returns(Succ))
  }

  /** A pop that does not succeed hands the worker a null task, on which it stops. */
  ghost predicate WorkerGets(s: Pipeline, i: int, r: Outcome<int>, s': Pipeline) {
    && 0 <= i < |s.workers| && s.workers[i] == Getting
    && PopTurn(s.b1, i, s'.b1, r)
    && s' == s.(b1 := s'.b1,
                workers := if r.Popped? then s.workers[i := Putting(r.value)]
                    else if r.Returns? then s.workers[i := Quitting] else s.workers)
  }

  ghost predicate WorkerPuts(s: Pipeline, i: int, r: Outcome<int>, s': Pipeline) {
    && 0 <= i < |s.workers| && s.workers[i].Putting?
    && PushTurn(s.b2, i, s.workers[i].task, s'.b2, r)
    && s' == s.(b2 := s'.b2,
                workers := if r.Waits? then s.workers else s.workers[i := Getting],
                assertFailed := s.assertFailed || r.Returns?)
  }

  ghost predicate WorkerQuits(s: Pipeline, i: int, r: Outcome<int>, s': Pipeline) {
    && 0 <= i < |s.workers| && s.workers[i] == Quitting
    && ConsumerQuitTurn(s.b1, s'.b1, r)
    && s' == s.(b1 := s'.b1, workers := s.workers[i := Leaving], assertFailed := s.assertFailed || r != Returns(Succ))
  }

  ghost predicate WorkerLeaves(s: Pipeline, i: int, r: Outcome<int>, s': Pipeline) {
    && 0 <= i < |s.workers| && s.workers[i] == Leaving
    && ProducerQuitTurn(s.b2, s'.b2, r)
    && s' == s.(b2 := s'.b2, workers := s.workers[i := Gone], assertFailed := s.assertFailed || r != Returns(Succ))
  }

  ghost predicate ConsumerGets(s: Pipeline, i: int, r: Outcome<int>, s': Pipeline) {
    && 0 <= i < |s.consumers| && s.consumers[i] == Asking
    && PopTurn(s.b2, i, s'.b2, r)
    && s' == s.(b2 := s'.b2,
                consumers := if r.Popped? then s.consumers[i := Using(r.value)]
                    else if r.Returns? then s.consumers[i := Stopping] else s.consumers)
  }

  ghost predicate ConsumerUses(s: Pipeline, i: int, s': Pipeline) {
    && 0 <= i < |s.consumers| && s.consumers[i].Using?
    && s' == s.(consumers := s.consumers[i := Asking], consumed := s.consumed + [s.consumers[i].task])
  }

  ghost predicate ConsumerQuits(s: Pipeline, i: int, r: Outcome<int>, s': Pipeline) {
    && 0 <= i < |s.consumers| && s.consumers[i] == Stopping
    && ConsumerQuitTurn(s.b2, s'.b2, r)
    && s' == s.(b2 := s'.b2, consumers := s.consumers[i := Stopped],
                assertFailed := s.assertFailed || r != Returns(Succ))
  }

  ghost predicate StepOf(s: Pipeline, i: int, r: Outcome<int>, s': Pipeline) {
    || ProducerPuts(s, i, r, s') || ProducerQuits(s, i, r, s')
    || WorkerGets(s, i, r, s') || WorkerPuts(s, i, r, s') || WorkerQuits(s, i, r, s') || WorkerLeaves(s, i, r, s')
    || ConsumerGets(s, i, r, s') || ConsumerUses(s, i, s') || ConsumerQuits(s, i, r, s')
  }

  ghost predicate Next(s: Pipeline, s': Pipeline) {
    exists i, r :: StepOf(s, i, r, s')
  }

  // ----- What every step keeps -----

  ghost function ActiveProducers(ps: seq<Producer>): set<int> {
    set i | 0 <= i < |ps| && !ps[i].done
  }

  /** The workers still registered as consumers of the first buffer. */
  ghost function Drawing(ws: seq<Worker>): set<int> {
    set i | 0 <= i < |ws| && !ws[i].Leaving? && !ws[i].Gone?
  }

  /** The workers still registered as producers of the second buffer. */
  ghost function Feeding(ws: seq<Worker>): set<int> {
    set i | 0 <= i < |ws| && !ws[i].Gone?
  }

  ghost function Listening(cs: seq<Consumer>): set<int> {
    set i | 0 <= i < |cs| && !cs[i].Stopped?
  }

  ghost predicate Registered(b: Buffer<int>, producers: nat, alive: set<int>, consumers: nat, listening: set<int>) {
    && !b.failed && b.maxSize > 0 && producers > 0 && consumers > 0
    && b.numProducer == producers && b.aliveProducers == |alive| && (b.noAliveProducer <==> alive == {})
    && b.numConsumer == consumers && b.aliveConsumers == |listening| && (b.noAliveConsumer <==> listening == {})
  }

  /** The counters of both buffers agree with the threads. */
  ghost predicate Counted(s: Pipeline) {
    && Registered(s.b1, |s.producers|, ActiveProducers(s.producers), |s.workers|, Drawing(s.workers))
    && Registered(s.b2, |s.workers|, Feeding(s.workers), |s.consumers|, Listening(s.consumers))
    && (forall i :: 0 <= i < |s.producers| ==> s.producers[i].next <= |s.producers[i].tasks|)
    && (forall i :: 0 <= i < |s.producers| && s.producers[i].done ==> s.producers[i].next == |s.producers[i].tasks|)
  }

  /** Nobody gives up on a buffer before it is empty for good. */
  ghost predicate Drained(s: Pipeline) {
    && (forall i :: 0 <= i < |s.workers| && !s.workers[i].Getting? && !s.workers[i].Putting? ==>
        s.b1.noAliveProducer && s.b1.queue == [])
    && (forall i :: 0 <= i < |s.consumers| && !s.consumers[i].Asking? && !s.consumers[i].Using? ==>
        s.b2.noAliveProducer && s.b2.queue == [])
  }

  ghost predicate Orderly(s: Pipeline) {
    Counted(s) && Drained(s) && !s.assertFailed
  }

  lemma CountAfter(a: set<int>, i: int)
    requires i in a
    ensures |a - {i}| == |a| - 1
    ensures a - {i} == {} <==> |a| == 1
  {
    assert a == (a - {i}) + {i};
  }

  lemma NobodyDraws(ws: seq<Worker>)
    ensures Drawing(ws) == {} && |ws| > 0 ==> ws[0].Leaving? || ws[0].Gone?
  {
    assert |ws| > 0 && !ws[0].Leaving? && !ws[0].Gone? ==> 0 in Drawing(ws);
  }

  lemma NobodyListens(cs: seq<Consumer>)
    ensures Listening(cs) == {} && |cs| > 0 ==> cs[0].Stopped?
  {
    assert |cs| > 0 && !cs[0].Stopped? ==> 0 in Listening(cs);
  }

  lemma OrderlyProducerPuts(s: Pipeline, i: int, r: Outcome<int>, s': Pipeline)
    requires Orderly(s) && ProducerPuts(s, i, r, s')
    ensures Orderly(s') && !r.Returns?
  {
    assert i in ActiveProducers(s.producers);
    NobodyDraws(s.workers);
    assert ActiveProducers(s'.producers) == ActiveProducers(s.producers);
  }

  lemma OrderlyProducerQuits(s: Pipeline, i: int, r: Outcome<int>, s': Pipeline)
    requires Orderly(s) && ProducerQuits(s, i, r, s')
    ensures Orderly(s') && r == Returns(Succ)
  {
    assert i in ActiveProducers(s.producers);
    CountAfter(ActiveProducers(s.producers), i);
    assert ActiveProducers(s'.producers) == ActiveProducers(s.producers) - {i};
  }

  lemma OrderlyWorkerGets(s: Pipeline, i: int, r: Outcome<int>, s': Pipeline)
    requires Orderly(s) && WorkerGets(s, i, r, s')
    ensures Orderly(s')
  {
    assert Drawing(s'.workers) == Drawing(s.workers);
    assert Feeding(s'.workers) == Feeding(s.workers);
  }

  lemma OrderlyWorkerPuts(s: Pipeline, i: int, r: Outcome<int>, s': Pipeline)
    requires Orderly(s) && WorkerPuts(s, i, r, s')
    ensures Orderly(s') && !r.Returns?
  {
    assert i in Feeding(s.workers);
    NobodyListens(s.consumers);
    assert Drawing(s'.workers) == Drawing(s.workers);
    assert Feeding(s'.workers) == Feeding(s.workers);
  }

  lemma OrderlyWorkerQuits(s: Pipeline, i: int, r: Outcome<int>, s': Pipeline)
    requires Orderly(s) && WorkerQuits(s, i, r, s')
    ensures Orderly(s') && r == Returns(Succ)
  {
    assert i in Drawing(s.workers);
    CountAfter(Drawing(s.workers), i);
    assert Drawing(s'.workers) == Drawing(s.workers) - {i};
    assert Feeding(s'.workers) == Feeding(s.workers);
  }

  lemma OrderlyWorkerLeaves(s: Pipeline, i: int, r: Outcome<int>, s': Pipeline)
    requires Orderly(s) && WorkerLeaves(s, i, r, s')
    ensures Orderly(s') && r == Returns(Succ)
  {
    assert i in Feeding(s.workers);
    CountAfter(Feeding(s.workers), i);
    assert Drawing(s'.workers) == Drawing(s.workers);
    assert Feeding(s'.workers) == Feeding(s.workers) - {i};
  }

  lemma OrderlyConsumerGets(s: Pipeline, i: int, r: Outcome<int>, s': Pipeline)
    requires Orderly(s) && ConsumerGets(s, i, r, s')
    ensures Orderly(s')
  {
    assert Listening(s'.consumers) == Listening(s.consumers);
  }

  lemma OrderlyConsumerUses(s: Pipeline, i: int, s': Pipeline)
    requires Orderly(s) && ConsumerUses(s, i, s')
    ensures Orderly(s')
  {
    assert Listening(s'.consumers) == Listening(s.consumers);
  }

  lemma OrderlyConsumerQuits(s: Pipeline, i: int, r: Outcome<int>, s': Pipeline)
    requires Orderly(s) && ConsumerQuits(s, i, r, s')
    ensures Orderly(s') && r == Returns(Succ)
  {
    assert i in Listening(s.consumers);
    CountAfter(Listening(s.consumers), i);
    assert Listening(s'.consumers) == Listening(s.consumers) - {i};
  }

  // ----- Conservation -----

  ghost function Count(s: seq<int>, task: int): nat {
    multiset(s)[task]
  }

  ghost function PutBy(p: Producer, task: int): int {
    Count(if p.next <= |p.tasks| then p.tasks[..p.next] else p.tasks, task)
  }

  ghost function HeldBy(w: Worker, task: int): int {
    if w == Putting(task) then 1 else 0
  }

  ghost function UsedBy(c: Consumer, task: int): int {
    if c == Using(task) then 1 else 0
  }

  /** How often the producers have put the task. */
  ghost function Put(ps: seq<Producer>, task: int): int {
    Sum(seq(|ps|, i requires 0 <= i < |ps| => PutBy(ps[i], task)))
  }

  /** How often the producers are to put the task. */
  ghost function Planned(ps: seq<Producer>, task: int): int {
    Sum(seq(|ps|, i requires 0 <= i < |ps| => Count(ps[i].tasks, task)))
  }

  ghost function HeldByWorkers(ws: seq<Worker>, task: int): int {
    Sum(seq(|ws|, i requires 0 <= i < |ws| => HeldBy(ws[i], task)))
  }

  ghost function HeldByConsumers(cs: seq<Consumer>, task: int): int {
    Sum(seq(|cs|, i requires 0 <= i < |cs| => UsedBy(cs[i], task)))
  }

  ghost predicate Balanced(s: Pipeline, task: int) {
    Put(s.producers, task) ==
    Count(s.b1.queue, task) + HeldByWorkers(s.workers, task) +
    Count(s.b2.queue, task) + HeldByConsumers(s.consumers, task) + Count(s.consumed, task)
  }

  /** Every task put is in one of the buffers, held by one thread, or consumed. */
  ghost predicate Conserved(s: Pipeline) {
    forall task :: Balanced(s, task)
  }

  lemma PutUpdate(ps: seq<Producer>, i: int, p: Producer, task: int)
    requires 0 <= i < |ps|
    ensures Put(ps[i := p], task) == Put(ps, task) - PutBy(ps[i], task) + PutBy(p, task)
  {
    var ns := seq(|ps|, k requires 0 <= k < |ps| => PutBy(ps[k], task));
    SumUpdate(ns, i, PutBy(p, task));
    assert ns[i := PutBy(p, task)] == seq(|ps|, k requires 0 <= k < |ps| => PutBy(ps[i := p][k], task));
  }

  lemma WorkerUpdate(ws: seq<Worker>, i: int, w: Worker, task: int)
    requires 0 <= i < |ws|
    ensures HeldByWorkers(ws[i := w], task) == HeldByWorkers(ws, task) - HeldBy(ws[i], task) + HeldBy(w, task)
  {
    var ns := seq(|ws|, k requires 0 <= k < |ws| => HeldBy(ws[k], task));
    SumUpdate(ns, i, HeldBy(w, task));
    assert ns[i := HeldBy(w, task)] == seq(|ws|, k requires 0 <= k < |ws| => HeldBy(ws[i := w][k], task));
  }

  lemma ConsumerUpdate(cs: seq<Consumer>, i: int, c: Consumer, task: int)
    requires 0 <= i < |cs|
    ensures HeldByConsumers(cs[i := c], task) == HeldByConsumers(cs, task) - UsedBy(cs[i], task) + UsedBy(c, task)
  {
    var ns := seq(|cs|, k requires 0 <= k < |cs| => UsedBy(cs[k], task));
    SumUpdate(ns, i, UsedBy(c, task));
    assert ns[i := UsedBy(c, task)] == seq(|cs|, k requires 0 <= k < |cs| => UsedBy(cs[i := c][k], task));
  }

  ghost function Indicator(b: bool): int {
    if b then 1 else 0
  }

  /** What a turn of push or pop does to the tasks in the queue. */
  lemma PushLoad(b: Buffer<int>, tid: ThreadId, t: int, b': Buffer<int>, r: Outcome<int>, task: int)
    requires PushTurn(b, tid, t, b', r)
    ensures Count(b'.queue, task) == Count(b.queue, task) + Indicator(r.Pushed? && t == task)
  {
  }

  lemma PopLoad(b: Buffer<int>, tid: ThreadId, b': Buffer<int>, r: Outcome<int>, task: int)
    requires PopTurn(b, tid, b', r)
    ensures Count(b.queue, task) == Count(b'.queue, task) + Indicator(r.Popped? && r.value == task)
  {
    if r.Popped? {
      assert b.queue == b'.queue + [r.value];
    }
  }

  lemma PutNext(p: Producer, task: int)
    requires p.next < |p.tasks|
    ensures PutBy(p.(next := p.next + 1), task) == PutBy(p, task) + Indicator(p.tasks[p.next] == task)
  {
    assert p.tasks[..p.next + 1] == p.tasks[..p.next] + [p.tasks[p.next]];
  }

  lemma BalancedProducerPuts(s: Pipeline, i: int, r: Outcome<int>, s': Pipeline, task: int)
    requires Balanced(s, task) && ProducerPuts(s, i, r, s')
    ensures Balanced(s', task)
  {
    hide PushTurn, Put, PutBy, HeldByWorkers, HeldByConsumers, Count;
    var p := s.producers[i];
    PushLoad(s.b1, i, p.tasks[p.next], s'.b1, r, task);
    PutUpdate(s.producers, i, s'.producers[i], task);
    assert s'.producers == s.producers[i := s'.producers[i]];
    PutNext(p, task);
  }

  lemma BalancedProducerQuits(s: Pipeline, i: int, r: Outcome<int>, s': Pipeline, task: int)
    requires Balanced(s, task) && ProducerQuits(s, i, r, s')
    ensures Balanced(s', task)
  {
    PutUpdate(s.producers, i, s.producers[i].(done := true), task);
  }

  lemma BalancedWorkerGets(s: Pipeline, i: int, r: Outcome<int>, s': Pipeline, task: int)
    requires Balanced(s, task) && WorkerGets(s, i, r, s')
    ensures Balanced(s', task)
  {
    PopLoad(s.b1, i, s'.b1, r, task);
    WorkerUpdate(s.workers, i, s'.workers[i], task);
    assert s'.workers == s.workers[i := s'.workers[i]];
  }

  lemma BalancedWorkerPuts(s: Pipeline, i: int, r: Outcome<int>, s': Pipeline, task: int)
    requires Balanced(s, task) && WorkerPuts(s, i, r, s') && !r.Returns?
    ensures Balanced(s', task)
  {
    PushLoad(s.b2, i, s.workers[i].task, s'.b2, r, task);
    WorkerUpdate(s.workers, i, s'.workers[i], task);
    assert s'.workers == s.workers[i := s'.workers[i]];
  }

  lemma BalancedWorkerQuits(s: Pipeline, i: int, r: Outcome<int>, s': Pipeline, task: int)
    requires Balanced(s, task) && Drained(s) && WorkerQuits(s, i, r, s')
    ensures Balanced(s', task)
  {
    WorkerUpdate(s.workers, i, Leaving, task);
  }

  lemma BalancedWorkerLeaves(s: Pipeline, i: int, r: Outcome<int>, s': Pipeline, task: int)
    requires Balanced(s, task) && WorkerLeaves(s, i, r, s')
    ensures Balanced(s', task)
  {
    WorkerUpdate(s.workers, i, Gone, task);
  }

  lemma BalancedConsumerGets(s: Pipeline, i: int, r: Outcome<int>, s': Pipeline, task: int)
    requires Balanced(s, task) && ConsumerGets(s, i, r, s')
    ensures Balanced(s', task)
  {
    PopLoad(s.b2, i, s'.b2, r, task);
    ConsumerUpdate(s.consumers, i, s'.consumers[i], task);
    assert s'.consumers == s.consumers[i := s'.consumers[i]];
  }

  lemma BalancedConsumerUses(s: Pipeline, i: int, s': Pipeline, task: int)
    requires Balanced(s, task) && ConsumerUses(s, i, s')
    ensures Balanced(s', task)
  {
    ConsumerUpdate(s.consumers, i, Asking, task);
  }

  lemma BalancedConsumerQuits(s: Pipeline, i: int, r: Outcome<int>, s': Pipeline, task: int)
    requires Balanced(s, task) && Drained(s) && ConsumerQuits(s, i, r, s')
    ensures Balanced(s', task)
  {
    ConsumerUpdate(s.consumers, i, Stopped, task);
  }

  // ----- Who waits where -----

  ghost function Waiting(c: Condition): set<ThreadId> {
    c.parked + c.notified
  }

  /** Only a thread that is inside a push or pop waits for it. */
  ghost predicate Seated(s: Pipeline) {
    && (forall t :: t in Waiting(s.b1.notFull) ==>
          t < |s.producers| && !s.producers[t].done && s.producers[t].next < |s.producers[t].tasks|)
    && (forall t :: t in Waiting(s.b1.notEmpty) ==> t < |s.workers| && s.workers[t].Getting?)
    && (forall t :: t in Waiting(s.b2.notFull) ==> t < |s.workers| && s.workers[t].Putting?)
    && (forall t :: t in Waiting(s.b2.notEmpty) ==> t < |s.consumers| && s.consumers[t].Asking?)
  }

  ghost predicate Awake(s: Pipeline) {
    && ConsumersAwake(s.b1) && ProducersAwake(s.b1)
    && ConsumersAwake(s.b2) && ProducersAwake(s.b2)
  }

  lemma PushSeats(b: Buffer<int>, tid: ThreadId, t: int, b': Buffer<int>, r: Outcome<int>)
    requires PushTurn(b, tid, t, b', r) && Apart(b.notEmpty)
    ensures Waiting(b'.notFull) <= Waiting(b.notFull) + {tid}
    ensures !r.Waits? ==> tid !in Waiting(b'.notFull)
    ensures Waiting(b'.notEmpty) == Waiting(b.notEmpty)
  {
  }

  lemma PopSeats(b: Buffer<int>, tid: ThreadId, b': Buffer<int>, r: Outcome<int>)
    requires PopTurn(b, tid, b', r) && Apart(b.notFull)
    ensures Waiting(b'.notEmpty) <= Waiting(b.notEmpty) + {tid}
    ensures !r.Waits? ==> tid !in Waiting(b'.notEmpty)
    ensures Waiting(b'.notFull) == Waiting(b.notFull)
  {
  }

  lemma QuitSeats(b: Buffer<int>, b': Buffer<int>, r: Outcome<int>)
    requires ProducerQuitTurn(b, b', r) || ConsumerQuitTurn(b, b', r)
    ensures Waiting(b'.notFull) == Waiting(b.notFull) && Waiting(b'.notEmpty) == Waiting(b.notEmpty)
  {
  }

  lemma StaysAwake(b: Buffer<int>, call: Call<int>, b': Buffer<int>, r: Outcome<int>)
    requires ConsumersAwake(b) && ProducersAwake(b) && Turn(b, call, b', r) && !call.Clear?
    ensures ConsumersAwake(b') && ProducersAwake(b')
  {
    ConsumersStayAwake(b, call, b', r);
    ProducersStayAwake(b, call, b', r);
  }

  lemma SeatedProducerPuts(s: Pipeline, i: int, r: Outcome<int>, s': Pipeline)
    requires Seated(s) && ProducerPuts(s, i, r, s') && Apart(s.b1.notEmpty)
    ensures Seated(s')
  {
    PushSeats(s.b1, i, s.producers[i].tasks[s.producers[i].next], s'.b1, r);
    assert forall t :: t in Waiting(s'.b1.notFull) ==> t == i || t in Waiting(s.b1.notFull);
  }

  lemma SeatedWorkerGets(s: Pipeline, i: int, r: Outcome<int>, s': Pipeline)
    requires Seated(s) && WorkerGets(s, i, r, s') && Apart(s.b1.notFull)
    ensures Seated(s')
  {
    PopSeats(s.b1, i, s'.b1, r);
    assert forall t :: t in Waiting(s'.b1.notEmpty) ==> t == i || t in Waiting(s.b1.notEmpty);
    assert forall t :: t in Waiting(s.b2.notFull) ==> t != i;
  }

  lemma SeatedWorkerPuts(s: Pipeline, i: int, r: Outcome<int>, s': Pipeline)
    requires Seated(s) && WorkerPuts(s, i, r, s') && Apart(s.b2.notEmpty)
    ensures Seated(s')
  {
    PushSeats(s.b2, i, s.workers[i].task, s'.b2, r);
    assert forall t :: t in Waiting(s'.b2.notFull) ==> t == i || t in Waiting(s.b2.notFull);
    assert forall t :: t in Waiting(s.b1.notEmpty) ==> t != i;
  }

  lemma SeatedConsumerGets(s: Pipeline, i: int, r: Outcome<int>, s': Pipeline)
    requires Seated(s) && ConsumerGets(s, i, r, s') && Apart(s.b2.notFull)
    ensures Seated(s')
  {
    PopSeats(s.b2, i, s'.b2, r);
    assert forall t :: t in Waiting(s'.b2.notEmpty) ==> t == i || t in Waiting(s.b2.notEmpty);
  }

  lemma SeatedQuits(s: Pipeline, i: int, r: Outcome<int>, s': Pipeline)
    requires Seated(s)
    requires ProducerQuits(s, i, r, s') || WorkerQuits(s, i, r, s') || WorkerLeaves(s, i, r, s')
        || ConsumerQuits(s, i, r, s')
    ensures Seated(s')
  {
    if ProducerQuits(s, i, r, s') || WorkerQuits(s, i, r, s') {
      QuitSeats(s.b1, s'.b1, r);
    } else {
      QuitSeats(s.b2, s'.b2, r);
    }
  }

  // ----- Every step keeps the invariant -----

  ghost predicate Invariant(s: Pipeline) {
    Orderly(s) && Conserved(s) && Seated(s) && Awake(s)
  }

  lemma StepOrderly(s: Pipeline, i: int, r: Outcome<int>, s': Pipeline)
    requires Orderly(s) && StepOf(s, i, r, s')
    ensures Orderly(s') && (WorkerPuts(s, i, r, s') ==> !r.Returns?)
  {
    if ProducerPuts(s, i, r, s') { OrderlyProducerPuts(s, i, r, s'); }
    else if ProducerQuits(s, i, r, s') { OrderlyProducerQuits(s, i, r, s'); }
    else if WorkerGets(s, i, r, s') { OrderlyWorkerGets(s, i, r, s'); }
    else if WorkerPuts(s, i, r, s') { OrderlyWorkerPuts(s, i, r, s'); }
    else if WorkerQuits(s, i, r, s') { OrderlyWorkerQuits(s, i, r, s'); }
    else if WorkerLeaves(s, i, r, s') { OrderlyWorkerLeaves(s, i, r, s'); }
    else if ConsumerGets(s, i, r, s') { OrderlyConsumerGets(s, i, r, s'); }
    else if ConsumerUses(s, i, s') { OrderlyConsumerUses(s, i, s'); }
    else { OrderlyConsumerQuits(s, i, r, s'); }
  }

  lemma StepBalanced(s: Pipeline, i: int, r: Outcome<int>, s': Pipeline, task: int)
    requires Balanced(s, task) && Orderly(s) && StepOf(s, i, r, s')
    ensures Balanced(s', task)
  {
    if ProducerPuts(s, i, r, s') { BalancedProducerPuts(s, i, r, s', task); }
    else if ProducerQuits(s, i, r, s') { BalancedProducerQuits(s, i, r, s', task); }
    else if WorkerGets(s, i, r, s') { BalancedWorkerGets(s, i, r, s', task); }
    else if WorkerPuts(s, i, r, s') { OrderlyWorkerPuts(s, i, r, s'); BalancedWorkerPuts(s, i, r, s', task); }
    else if WorkerQuits(s, i, r, s') { BalancedWorkerQuits(s, i, r, s', task); }
    else if WorkerLeaves(s, i, r, s') { BalancedWorkerLeaves(s, i, r, s', task); }
    else if ConsumerGets(s, i, r, s') { BalancedConsumerGets(s, i, r, s', task); }
    else if ConsumerUses(s, i, s') { BalancedConsumerUses(s, i, s', task); }
    else { BalancedConsumerQuits(s, i, r, s', task); }
  }

  lemma StepSeated(s: Pipeline, i: int, r: Outcome<int>, s': Pipeline)
    requires Seated(s) && Awake(s) && StepOf(s, i, r, s')
    ensures Seated(s')
  {
    if ProducerPuts(s, i, r, s') { SeatedProducerPuts(s, i, r, s'); }
    else if WorkerGets(s, i, r, s') { SeatedWorkerGets(s, i, r, s'); }
    else if WorkerPuts(s, i, r, s') { SeatedWorkerPuts(s, i, r, s'); }
    else if ConsumerGets(s, i, r, s') { SeatedConsumerGets(s, i, r, s'); }
    else if !ConsumerUses(s, i, s') { SeatedQuits(s, i, r, s'); }
  }

  lemma StepAwake(s: Pipeline, i: int, r: Outcome<int>, s': Pipeline)
    requires Awake(s) && StepOf(s, i, r, s')
    ensures Awake(s')
  {
    if ProducerPuts(s, i, r, s') { StaysAwake(s.b1, Push(i, s.producers[i].tasks[s.producers[i].next]), s'.b1, r); }
    else if ProducerQuits(s, i, r, s') { StaysAwake(s.b1, ProducerQuit, s'.b1, r); }
    else if WorkerGets(s, i, r, s') { StaysAwake(s.b1, Pop(i), s'.b1, r); }
    else if WorkerPuts(s, i, r, s') { StaysAwake(s.b2, Push(i, s.workers[i].task), s'.b2, r); }
    else if WorkerQuits(s, i, r, s') { StaysAwake(s.b1, ConsumerQuit, s'.b1, r); }
    else if WorkerLeaves(s, i, r, s') { StaysAwake(s.b2, ProducerQuit, s'.b2, r); }
    else if ConsumerGets(s, i, r, s') { StaysAwake(s.b2, Pop(i), s'.b2, r); }
    else if ConsumerQuits(s, i, r, s') { StaysAwake(s.b2, ConsumerQuit, s'.b2, r); }
  }

  lemma StepKeeps(s: Pipeline, s': Pipeline)
    requires Invariant(s) && Next(s, s')
    ensures Invariant(s')
  {
    var i, r :| StepOf(s, i, r, s');
    StepOrderly(s, i, r, s');
    forall task ensures Balanced(s', task) { StepBalanced(s, i, r, s', task); }
    StepSeated(s, i, r, s');
    StepAwake(s, i, r, s');
  }

  lemma StartOrderly(s: Pipeline, size1: nat, size2: nat)
    requires Starts(s, size1, size2)
    ensures Orderly(s)
  {
    assert ActiveProducers(s.producers) == Below(|s.producers|);
    assert Drawing(s.workers) == Below(|s.workers|);
    assert Feeding(s.workers) == Below(|s.workers|);
    assert Listening(s.consumers) == Below(|s.consumers|);
    assert 0 in ActiveProducers(s.producers) && 0 in Drawing(s.workers) && 0 in Feeding(s.workers)
        && 0 in Listening(s.consumers);
  }

  lemma StartBalanced(s: Pipeline, size1: nat, size2: nat, task: int)
    requires Starts(s, size1, size2)
    ensures Balanced(s, task)
  {
    var ps, ws, cs := s.producers, s.workers, s.consumers;
    var put := seq(|ps|, i requires 0 <= i < |ps| => PutBy(ps[i], task));
    forall i | 0 <= i < |put|
      ensures put[i] == 0
    {
      assert ps[i].tasks[..ps[i].next] == [];
    }
    SumZero(put);
    SumZero(seq(|ws|, i requires 0 <= i < |ws| => HeldBy(ws[i], task)));
    SumZero(seq(|cs|, i requires 0 <= i < |cs| => UsedBy(cs[i], task)));
  }

  lemma StartKeeps(s: Pipeline, size1: nat, size2: nat)
    requires Starts(s, size1, size2)
    ensures Invariant(s)
  {
    StartOrderly(s, size1, size2);
    forall task ensures Balanced(s, task) { StartBalanced(s, size1, size2, task); }
  }

  // ----- Progress -----

  ghost predicate ProducerMoves(s: Pipeline, i: int) {
    && 0 <= i < |s.producers| && !s.producers[i].done
    && (s.producers[i].next < |s.producers[i].tasks| ==> i !in s.b1.notFull.parked && !MustWaitToPush(s.b1))
  }

  ghost predicate WorkerMoves(s: Pipeline, i: int) {
    && 0 <= i < |s.workers| && !s.workers[i].Gone?
    && (s.workers[i].Getting? ==> i !in s.b1.notEmpty.parked && !MustWaitToPop(s.b1))
    && (s.workers[i].Putting? ==> i !in s.b2.notFull.parked && !MustWaitToPush(s.b2))
  }

  ghost predicate ConsumerMoves(s: Pipeline, i: int) {
    && 0 <= i < |s.consumers| && !s.consumers[i].Stopped?
    && (s.consumers[i].Asking? ==> i !in s.b2.notEmpty.parked && !MustWaitToPop(s.b2))
  }

  ghost predicate SomebodyMoves(s: Pipeline) {
    (exists i :: ProducerMoves(s, i)) || (exists i :: WorkerMoves(s, i)) || (exists i :: ConsumerMoves(s, i))
  }

  /** A step of a thread that is not parked, and that does not end in a wait. */
  ghost predicate AwakeStep(s: Pipeline, i: int, r: Outcome<int>, s': Pipeline) {
    && r != Waits
    && (|| (ProducerPuts(s, i, r, s') && i !in s.b1.notFull.parked) || ProducerQuits(s, i, r, s')
        || (WorkerGets(s, i, r, s') && i !in s.b1.notEmpty.parked)
        || (WorkerPuts(s, i, r, s') && i !in s.b2.notFull.parked) || WorkerQuits(s, i, r, s')
            || WorkerLeaves(s, i, r, s')
        || (ConsumerGets(s, i, r, s') && i !in s.b2.notEmpty.parked) || ConsumerUses(s, i, s')
            || ConsumerQuits(s, i, r, s'))
  }

  /** Some thread that is not parked can take a step that does not end in a wait. */
  ghost predicate CanMove(s: Pipeline) {
    exists i, r, s' :: AwakeStep(s, i, r, s')
  }

  lemma PushEnds(b: Buffer<int>, tid: ThreadId, t: int) returns (b': Buffer<int>, r: Outcome<int>)
    requires !MustWaitToPush(b)
    ensures PushTurn(b, tid, t, b', r) && r != Waits
  {
    var c := b.(notFull := b.notFull.Without(tid));
    if b.failed {
      b', r := c, Returns(BufferFailed);
    } else if b.noAliveConsumer {
      b', r := c, Returns(NoAliveConsumer);
    } else {
      var after := SomeNotified(c.notEmpty);
      b', r := c.(objectId := b.objectId + 1, queue := [t] + b.queue, notEmpty := after), Pushed(b.objectId);
    }
  }

  lemma PopEnds(b: Buffer<int>, tid: ThreadId) returns (b': Buffer<int>, r: Outcome<int>)
    requires !MustWaitToPop(b)
    ensures PopTurn(b, tid, b', r) && r != Waits
  {
    var c := b.(notEmpty := b.notEmpty.Without(tid));
    if b.failed {
      b', r := c, Returns(BufferFailed);
    } else if |b.queue| == 0 {
      b', r := c, Returns(NoMoreObject);
    } else {
      var after := SomeNotified(c.notFull);
      var last := |b.queue| - 1;
      b', r := c.(queue := b.queue[..last], notFull := after), Popped(b.queue[last], b.objectId - |b.queue|);
    }
  }

  lemma SomeNotified(c: Condition) returns (after: Condition)
    ensures c.NotifiedOne(after)
  {
    if c.parked == {} {
      after := c;
    } else {
      var p :| p in c.parked;
      after := Condition(c.parked - {p}, c.notified + {p});
    }
  }

  lemma QuitsEnd(b: Buffer<int>) returns (p: Buffer<int>, rp: Outcome<int>, c: Buffer<int>, rc: Outcome<int>)
    ensures ProducerQuitTurn(b, p, rp) && rp != Waits
    ensures ConsumerQuitTurn(b, c, rc) && rc != Waits
  {
    if b.failed {
      p, rp, c, rc := b, Returns(BufferFailed), b, Returns(BufferFailed);
    } else {
      if b.numProducer == 0 || b.aliveProducers == 0 {
        p, rp := b, Returns(UnexpectedProducerQuit);
      } else {
        rp := Returns(Succ);
        p := if b.aliveProducers == 1
             then b.(aliveProducers := 0, noAliveProducer := true, notEmpty := b.notEmpty.NotifyAll())
             else b.(aliveProducers := b.aliveProducers - 1);
      }
      if b.numConsumer == 0 || b.aliveConsumers == 0 {
        c, rc := b, Returns(UnexpectedConsumerQuit);
      } else {
        rc := Returns(Succ);
        c := if b.aliveConsumers == 1
             then b.(aliveConsumers := 0, noAliveConsumer := true, queue := [], notFull := b.notFull.NotifyAll())
             else b.(aliveConsumers := b.aliveConsumers - 1);
      }
    }
  }

  lemma ProducerSteps(s: Pipeline, i: int)
    requires ProducerMoves(s, i)
    ensures CanMove(s)
  {
    hide PushTurn, ProducerQuitTurn;
    var p := s.producers[i];
    if p.next < |p.tasks| {
      var b, r := PushEnds(s.b1, i, p.tasks[p.next]);
      var s' := s.(b1 := b, producers := if r.Pushed? then s.producers[i := p.(next := p.next + 1)] else s.producers,
                   assertFailed := s.assertFailed || r.Returns?);
      assert AwakeStep(s, i, r, s');
    } else {
      var b, r, _, _ := QuitsEnd(s.b1);
      var s' := s.(b1 := b, producers := s.producers[i := p.(done := true)],
                   assertFailed := s.assertFailed || r != Returns(Succ));
      assert ProducerQuits(s, i, r, s');
      assert AwakeStep(s, i, r, s');
    }
  }

  lemma WorkerSteps(s: Pipeline, i: int)
    requires WorkerMoves(s, i)
    ensures CanMove(s)
  {
    hide PushTurn, PopTurn, ProducerQuitTurn, ConsumerQuitTurn;
    match s.workers[i]
    case Getting =>
      var b, r := PopEnds(s.b1, i);
      var s' := s.(b1 := b, workers := if r.Popped? then s.workers[i := Putting(r.value)]
                                       else if r.Returns? then s.workers[i := Quitting] else s.workers);
      assert WorkerGets(s, i, r, s');
      assert AwakeStep(s, i, r, s');
    case Putting(task) =>
      var b, r := PushEnds(s.b2, i, task);
      var s' := s.(b2 := b, workers := s.workers[i := Getting], assertFailed := s.assertFailed || r.Returns?);
      assert WorkerPuts(s, i, r, s');
      assert AwakeStep(s, i, r, s');
    case Quitting =>
      var _, _, b, r := QuitsEnd(s.b1);
      var s' := s.(b1 := b, workers := s.workers[i := Leaving], assertFailed := s.assertFailed || r != Returns(Succ));
      assert WorkerQuits(s, i, r, s');
      assert AwakeStep(s, i, r, s');
    case Leaving =>
      var b, r, _, _ := QuitsEnd(s.b2);
      var s' := s.(b2 := b, workers := s.workers[i := Gone], assertFailed := s.assertFailed || r != Returns(Succ));
      assert WorkerLeaves(s, i, r, s');
      assert AwakeStep(s, i, r, s');
  }

  lemma ConsumerSteps(s: Pipeline, i: int)
    requires ConsumerMoves(s, i)
    ensures CanMove(s)
  {
    hide PopTurn, ConsumerQuitTurn;
    match s.consumers[i]
    case Asking =>
      var b, r := PopEnds(s.b2, i);
      var s' := s.(b2 := b, consumers := if r.Popped? then s.consumers[i := Using(r.value)]
                                         else if r.Returns? then s.consumers[i := Stopping] else s.consumers);
      assert ConsumerGets(s, i, r, s');
      assert AwakeStep(s, i, r, s');
    case Using(task) =>
      var s' := s.(consumers := s.consumers[i := Asking], consumed := s.consumed + [task]);
      assert ConsumerUses(s, i, s');
      assert AwakeStep(s, i, Returns(Succ), s');
    case Stopping =>
      var _, _, b, r := QuitsEnd(s.b2);
      var s' := s.(b2 := b, consumers := s.consumers[i := Stopped], assertFailed := s.assertFailed
          || r != Returns(Succ));
      assert ConsumerQuits(s, i, r, s');
      assert AwakeStep(s, i, r, s');
  }

  ghost predicate Finished(s: Pipeline) {
    ActiveProducers(s.producers) == {} && Feeding(s.workers) == {} && Listening(s.consumers) == {}
  }

  /** When a consumer is parked although there is something for it, another one has been notified. */
  lemma NotifiedConsumer(b: Buffer<int>) returns (j: ThreadId)
    requires ConsumersAwake(b) && b.notEmpty.parked != {} && (|b.queue| > 0 || b.noAliveProducer)
    ensures j in Waiting(b.notEmpty) && j !in b.notEmpty.parked && !MustWaitToPop(b)
  {
    j :| j in b.notEmpty.notified;
  }

  /** The same for a producer and an empty queue. */
  lemma NotifiedProducer(b: Buffer<int>) returns (j: ThreadId)
    requires ProducersAwake(b) && b.notFull.parked != {} && |b.queue| == 0 && b.maxSize > 0
    ensures j in Waiting(b.notFull) && j !in b.notFull.parked && !MustWaitToPush(b)
  {
    j :| j in b.notFull.notified;
  }

  lemma SomeProducerMoves(s: Pipeline)
    requires Invariant(s) && ActiveProducers(s.producers) != {} && |s.b1.queue| == 0
    ensures exists i :: ProducerMoves(s, i)
  {
    hide Conserved;
    var i :| i in ActiveProducers(s.producers);
    if !ProducerMoves(s, i) {
      var j := NotifiedProducer(s.b1);
      assert ProducerMoves(s, j);
    }
  }

  lemma PutterMoves(s: Pipeline, i: int)
    requires Invariant(s) && |s.b2.queue| == 0 && 0 <= i < |s.workers| && s.workers[i].Putting? && !WorkerMoves(s, i)
    ensures exists j :: WorkerMoves(s, j)
  {
    hide Conserved;
    var j := NotifiedProducer(s.b2);
    assert WorkerMoves(s, j);
  }

  lemma GetterMoves(s: Pipeline, i: int)
    requires Invariant(s) && 0 <= i < |s.workers| && s.workers[i].Getting? && !WorkerMoves(s, i)
    requires |s.b1.queue| > 0 || s.b1.noAliveProducer
    ensures exists j :: WorkerMoves(s, j)
  {
    hide Conserved;
    var j := NotifiedConsumer(s.b1);
    assert WorkerMoves(s, j);
  }

  lemma SomeWorkerMoves(s: Pipeline)
    requires Invariant(s) && Feeding(s.workers) != {} && |s.b2.queue| == 0 && (|s.b1.queue| > 0 || s.b1.noAliveProducer)
    ensures exists i :: WorkerMoves(s, i)
  {
    hide Invariant;
    var i :| i in Feeding(s.workers);
    if !WorkerMoves(s, i) {
      if s.workers[i].Putting? {
        PutterMoves(s, i);
      } else {
        GetterMoves(s, i);
      }
    }
  }

  lemma SomeConsumerMoves(s: Pipeline)
    requires Invariant(s) && Listening(s.consumers) != {} && (|s.b2.queue| > 0 || s.b2.noAliveProducer)
    ensures exists i :: ConsumerMoves(s, i)
  {
    hide Conserved;
    var i :| i in Listening(s.consumers);
    if !ConsumerMoves(s, i) {
      var j := NotifiedConsumer(s.b2);
      assert ConsumerMoves(s, j);
    }
  }

  /** No unfinished state is stuck: some thread that is not parked can take a step that does not end in a wait. */
  lemma NotStuck(s: Pipeline)
    requires Invariant(s)
    ensures Finished(s) || CanMove(s)
  {
    hide CanMove, ProducerMoves, WorkerMoves, ConsumerMoves, Invariant;
    SomebodyCanMove(s);
    if !Finished(s) {
      if i :| ProducerMoves(s, i) {
        ProducerSteps(s, i);
      } else if i :| WorkerMoves(s, i) {
        WorkerSteps(s, i);
      } else {
        var i :| ConsumerMoves(s, i);
        ConsumerSteps(s, i);
      }
    }
  }

  lemma SomebodyCanMove(s: Pipeline)
    requires Invariant(s)
    ensures Finished(s) || SomebodyMoves(s)
  {
    NobodyListens(s.consumers);
    NobodyFeeds(s.workers);
    if Listening(s.consumers) != {} && (|s.b2.queue| > 0 || s.b2.noAliveProducer) {
      SomeConsumerMoves(s);
    } else if Feeding(s.workers) != {} && (|s.b1.queue| > 0 || s.b1.noAliveProducer) {
      SomeWorkerMoves(s);
    } else if ActiveProducers(s.producers) != {} {
      SomeProducerMoves(s);
    }
  }

  lemma NobodyFeeds(ws: seq<Worker>)
    ensures Feeding(ws) == {} && |ws| > 0 ==> ws[0].Gone?
  {
    assert |ws| > 0 && !ws[0].Gone? ==> 0 in Feeding(ws);
  }

  // ----- Whole runs -----

  lemma StepTasks(s: Pipeline, s': Pipeline)
    requires Next(s, s')
    ensures |s'.producers| == |s.producers| && forall i :: 0 <= i < |s.producers| ==>
        s'.producers[i].tasks == s.producers[i].tasks
  {
  }

  lemma AllPut(ps: seq<Producer>, task: int)
    requires forall i :: 0 <= i < |ps| ==> ps[i].next == |ps[i].tasks|
    ensures Put(ps, task) == Planned(ps, task)
  {
    forall i | 0 <= i < |ps|
      ensures PutBy(ps[i], task) == Count(ps[i].tasks, task)
    {
      assert ps[i].tasks[..|ps[i].tasks|] == ps[i].tasks;
    }
    assert seq(|ps|, i requires 0 <= i < |ps| => PutBy(ps[i], task)) ==
           seq(|ps|, i requires 0 <= i < |ps| => Count(ps[i].tasks, task));
  }

  lemma NothingHeld(ws: seq<Worker>, cs: seq<Consumer>, task: int)
    requires Feeding(ws) == {} && Listening(cs) == {}
    ensures HeldByWorkers(ws, task) == 0 && HeldByConsumers(cs, task) == 0
  {
    forall i | 0 <= i < |ws| ensures ws[i] == Gone { assert i !in Feeding(ws); }
    forall i | 0 <= i < |cs| ensures cs[i] == Stopped { assert i !in Listening(cs); }
    SumZero(seq(|ws|, i requires 0 <= i < |ws| => HeldBy(ws[i], task)));
    SumZero(seq(|cs|, i requires 0 <= i < |cs| => UsedBy(cs[i], task)));
  }

  lemma FinishedBalance(s: Pipeline, task: int)
    requires Orderly(s) && Balanced(s, task) && Finished(s)
    ensures s.b1.queue == [] && s.b2.queue == []
    ensures HeldByWorkers(s.workers, task) == 0 && HeldByConsumers(s.consumers, task) == 0
    ensures Count(s.consumed, task) == Planned(s.producers, task)
  {
    NobodyFeeds(s.workers);
    NobodyListens(s.consumers);
    forall i | 0 <= i < |s.producers|
      ensures s.producers[i].next == |s.producers[i].tasks|
    {
      assert i !in ActiveProducers(s.producers);
    }
    AllPut(s.producers, task);
    NothingHeld(s.workers, s.consumers, task);
  }

  ghost predicate IsRun(states: seq<Pipeline>, size1: nat, size2: nat) {
    && |states| > 0 && Starts(states[0], size1, size2)
    && forall k :: 0 <= k < |states| - 1 ==> Next(states[k], states[k + 1])
  }

  lemma {:induction false} RunKeeps(states: seq<Pipeline>, size1: nat, size2: nat, k: nat)
    requires IsRun(states, size1, size2) && k < |states|
    ensures Invariant(states[k])
    ensures |states[k].producers| == |states[0].producers|
    ensures forall i :: 0 <= i < |states[0].producers| ==> states[k].producers[i].tasks == states[0].producers[i].tasks
    decreases k
  {
    if k == 0 {
      StartKeeps(states[0], size1, size2);
    } else {
      RunKeeps(states, size1, size2, k - 1);
      assert Next(states[k - 1], states[k - 1 + 1]);
      StepKeeps(states[k - 1], states[k]);
      StepTasks(states[k - 1], states[k]);
    }
  }

  /**
   On every schedule: no assertion of the scheduler fails, every task put is in exactly one place, an
   unfinished state is never stuck, and a finished run has consumed every task as often as it was to be put.
   */
  lemma PipelineSafety(states: seq<Pipeline>, size1: nat, size2: nat, k: nat)
    requires IsRun(states, size1, size2) && k < |states|
    ensures !states[k].assertFailed
    ensures forall task :: Balanced(states[k], task)
    ensures Finished(states[k]) || CanMove(states[k])
    ensures Finished(states[k]) ==> forall task :: Count(states[k].consumed, task) == Planned(states[0].producers, task)
  {
    RunKeeps(states, size1, size2, k);
    NotStuck(states[k]);
    if Finished(states[k]) {
      forall task
        ensures Count(states[k].consumed, task) == Planned(states[0].producers, task)
      {
        FinishedBalance(states[k], task);
        var ps, qs := states[k].producers, states[0].producers;
        assert seq(|ps|, i requires 0 <= i < |ps| => Count(ps[i].tasks, task)) ==
               seq(|qs|, i requires 0 <= i < |qs| => Count(qs[i].tasks, task));
      }
    }
  }
}

/** The scheduler object: its methods are the turns that threads take on the two shared buffers. */
module PipelinedSchedulers {
  import opened BufferTurns
  import opened ObjectBuffers

  /** What a get returns: null when the pop did not succeed. */
  datatype Got = Null | Task(task: int)

  /**
   `passed` says whether the assertions on the return codes hold when the call ends; the runs of the
   pipeline never get to a call on which they do not.
   */
  class PipelinedScheduler {
    const mObjectBuffer1: ObjectBuffer<int>
    const mObjectBuffer2: ObjectBuffer<int>

    ghost predicate Valid() {
      mObjectBuffer1 != mObjectBuffer2
    }

    constructor (numProducer: nat, numWorker: nat, numConsumer: nat, bufferSize1: nat, bufferSize2: nat)
      ensures Valid() && fresh(mObjectBuffer1) && fresh(mObjectBuffer2)
      ensures mObjectBuffer1.State() == NewBuffer(bufferSize1, numProducer, numWorker)
      ensures mObjectBuffer2.State() == NewBuffer(bufferSize2, numWorker, numConsumer)
    {
      mObjectBuffer1 := new ObjectBuffer(bufferSize1, numProducer, numWorker);
      mObjectBuffer2 := new ObjectBuffer(bufferSize2, numWorker, numConsumer);
    }

    method ProducerPutTask(tid: ThreadId, task: int) returns (r: Outcome<int>, passed: bool)
      requires Valid()
      modifies mObjectBuffer1
      ensures PushTurn(old(mObjectBuffer1.State()), tid, task, mObjectBuffer1.State(), r)
      ensures var b := old(mObjectBuffer1.State()); passed <==> !b.failed && !b.noAliveConsumer
    {
      r := mObjectBuffer1.Push(tid, task);
      passed := !r.Returns?;
    }

    method WorkerGetTask(tid: ThreadId) returns (r: Outcome<int>, got: Got)
      requires Valid()
      modifies mObjectBuffer1
      ensures PopTurn(old(mObjectBuffer1.State()), tid, mObjectBuffer1.State(), r)
      ensures !r.Waits? ==> var b := old(mObjectBuffer1.State());
        got == if b.failed || |b.queue| == 0 then Null else Task(b.queue[|b.queue| - 1])
    {
      r := mObjectBuffer1.Pop(tid);
      got := if r.Popped? then Task(r.value) else Null;
    }

    method WorkerPutTask(tid: ThreadId, task: int) returns (r: Outcome<int>, passed: bool)
      requires Valid()
      modifies mObjectBuffer2
      ensures PushTurn(old(mObjectBuffer2.State()), tid, task, mObjectBuffer2.State(), r)
      ensures var b := old(mObjectBuffer2.State()); passed <==> !b.failed && !b.noAliveConsumer
    {
      r := mObjectBuffer2.Push(tid, task);
      passed := !r.Returns?;
    }

    method ConsumerGetTask(tid: ThreadId) returns (r: Outcome<int>, got: Got)
      requires Valid()
      modifies mObjectBuffer2
      ensures PopTurn(old(mObjectBuffer2.State()), tid, mObjectBuffer2.State(), r)
      ensures !r.Waits? ==> var b := old(mObjectBuffer2.State());
        got == if b.failed || |b.queue| == 0 then Null else Task(b.queue[|b.queue| - 1])
    {
      r := mObjectBuffer2.Pop(tid);
      got := if r.Popped? then Task(r.value) else Null;
    }

    method ProducerDone() returns (r: Outcome<int>, passed: bool)
      requires Valid()
      modifies mObjectBuffer1
      ensures ProducerQuitTurn(old(mObjectBuffer1.State()), mObjectBuffer1.State(), r)
      ensures var b := old(mObjectBuffer1.State()); passed <==> !b.failed && b.numProducer > 0 && b.aliveProducers > 0
    {
      r := mObjectBuffer1.ProducerQuit();
      passed := r == Returns(Succ);
    }

    /** Both turns of WorkerDone, with no other thread in between. */
    method WorkerDone() returns (r1: Outcome<int>, r2: Outcome<int>, passed: bool)
      requires Valid()
      modifies mObjectBuffer1, mObjectBuffer2
      ensures ConsumerQuitTurn(old(mObjectBuffer1.State()), mObjectBuffer1.State(), r1)
      ensures ProducerQuitTurn(old(mObjectBuffer2.State()), mObjectBuffer2.State(), r2)
      ensures var b1, b2 := old(mObjectBuffer1.State()), old(mObjectBuffer2.State());
        passed <==> !b1.failed && b1.numConsumer > 0 && b1.aliveConsumers > 0
                    && !b2.failed && b2.numProducer > 0 && b2.aliveProducers > 0
    {
      r1 := mObjectBuffer1.ConsumerQuit();
      passed := r1 == Returns(Succ);
      r2 := mObjectBuffer2.ProducerQuit();
      passed := passed && r2 == Returns(Succ);
    }

    method ConsumerDone() returns (r: Outcome<int>, passed: bool)
      requires Valid()
      modifies mObjectBuffer2
      ensures ConsumerQuitTurn(old(mObjectBuffer2.State()), mObjectBuffer2.State(), r)
      ensures var b := old(mObjectBuffer2.State()); passed <==> !b.failed && b.numConsumer > 0 && b.aliveConsumers > 0
    {
      r := mObjectBuffer2.ConsumerQuit();
      passed := r == Returns(Succ);
    }
  }
}
