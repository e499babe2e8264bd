/**
 The evaluation on the pipeline: the turns of the scheduler together with what the clients do between
 them. A worker scores the tasks of the bundle it holds one by one, the consumer adds the tasks of the
 bundle it holds to the running counters one by one, and both leave the bundle only when done.
 */
module EvaluationRuns {
  import opened Sums
  import opened BufferTurns
  import opened Pipelines
  import opened EvaluateRanking

  /** The bundles as they are now, how far each worker is in its bundle, how far the consumer is, and its counters. */
  datatype Evaluation = Evaluation(pipe: Pipeline, bundles: seq<seq<Task>>, scored: seq<nat>, added: nat,
      running: Tally)

  ghost predicate Starts(bundles: seq<seq<Task>>, e: Evaluation, size1: nat, size2: nat) {
    && Pipelines.Starts(e.pipe, size1, size2)
    && |e.pipe.producers| == 1 && e.pipe.producers[0].tasks == Handles(|bundles|) && |e.pipe.consumers| == 1
    && e.bundles == bundles && e.scored == seq(|e.pipe.workers|, _ => 0) && e.added == 0 && e.running == ZERO
  }

  ghost function SizeOf(bundles: seq<seq<Task>>, h: int): nat {
    if 0 <= h < |bundles| then |bundles[h]| else 0
  }

  // ----- Steps -----

  /** Worker i scores the next task of its bundle. */
  ghost predicate WorkerScores(users: seq<User>, e: Evaluation, i: int, e': Evaluation) {
    && 0 <= i < |e.pipe.workers| == |e.scored| && e.pipe.workers[i].Putting?
    && var h, k := e.pipe.workers[i].task, e.scored[i];
    && 0 <= h < |e.bundles| && k < |e.bundles[h]| && 0 <= e.bundles[h][k].userId < |users|
    && var task := e.bundles[h][k];
    && e' == e.(bundles :=
        e.bundles[h := e.bundles[h][k := task.(tally := task.tally.Plus(ScoreOf(users[task.userId])))]],
                scored := e.scored[i := k + 1])
  }

  /** The consumer adds the next task of its bundle to the counters. */
  ghost predicate ConsumerAdds(e: Evaluation, e': Evaluation) {
    && |e.pipe.consumers| == 1 && e.pipe.consumers[0].Using?
    && var h := e.pipe.consumers[0].task;
    && 0 <= h < |e.bundles| && e.added < |e.bundles[h]|
    && e' == e.(running := e.running.Plus(e.bundles[h][e.added].tally), added := e.added + 1)
  }

  /** A worker that gets a bundle begins with its first task. */
  ghost predicate WorkerBegins(e: Evaluation, i: int, r: Outcome<int>, e': Evaluation) {
    && WorkerGets(e.pipe, i, r, e'.pipe) && i < |e.scored|
    && e' == e.(pipe := e'.pipe, scored := if r.Popped? then e.scored[i := 0] else e.scored)
  }

  /** A worker puts its bundle when it has scored all of it. */
  ghost predicate WorkerEnds(e: Evaluation, i: int, r: Outcome<int>, e': Evaluation) {
    && WorkerPuts(e.pipe, i, r, e'.pipe) && i < |e.scored| && e.scored[i] >= SizeOf(e.bundles, e.pipe.workers[i].task)
    && e' == e.(pipe := e'.pipe)
  }

  /** The consumer lets its bundle go when it has added all of it. */
  ghost predicate ConsumerEnds(e: Evaluation, i: int, e': Evaluation) {
    && ConsumerUses(e.pipe, i, e'.pipe) && e.added >= SizeOf(e.bundles, e.pipe.consumers[i].task)
    && e' == e.(pipe := e'.pipe, added := 0)
  }

  /** The turns of the scheduler that touch no bundle. */
  ghost predicate OtherTurn(e: Evaluation, i: int, r: Outcome<int>, e': Evaluation) {
    && (ProducerPuts(e.pipe, i, r, e'.pipe) || ProducerQuits(e.pipe, i, r, e'.pipe)
        || WorkerQuits(e.pipe, i, r, e'.pipe)
        || WorkerLeaves(e.pipe, i, r, e'.pipe) || ConsumerGets(e.pipe, i, r, e'.pipe)
            || ConsumerQuits(e.pipe, i, r, e'.pipe))
    && e' == e.(pipe := e'.pipe)
  }

  ghost predicate StepOf(users: seq<User>, e: Evaluation, i: int, r: Outcome<int>, e': Evaluation) {
    || WorkerScores(users, e, i, e') || ConsumerAdds(e, e') || WorkerBegins(e, i, r, e') || WorkerEnds(e, i, r, e')
    || ConsumerEnds(e, i, e') || OtherTurn(e, i, r, e')
  }

  ghost predicate Next(users: seq<User>, e: Evaluation, e': Evaluation) {
    exists i, r :: StepOf(users, e, i, r, e')
  }

  // ----- Where a bundle is -----

  /** The first n tasks have their score. */
  ghost function Partly(users: seq<User>, bundle: seq<Task>, n: nat): seq<Task>
    requires Known(users, bundle)
  {
    seq(|bundle|, k requires 0 <= k < |bundle| => if k < n then Scored(users, bundle)[k] else bundle[k])
  }

  ghost predicate AllKnown(users: seq<User>, first: seq<seq<Task>>) {
    forall h :: 0 <= h < |first| ==> Known(users, first[h])
  }

  /** Bundles not taken yet, in the first buffer or with the producer, are as they were at first. */
  ghost predicate Untouched(first: seq<seq<Task>>, bundles: seq<seq<Task>>, queue: seq<int>, next: nat)
    requires |bundles| == |first|
  {
    && (forall h :: h in queue ==> 0 <= h < |first| && bundles[h] == first[h])
    && (forall h :: next <= h < |first| ==> bundles[h] == first[h])
  }

  /** A bundle with a worker is scored as far as the worker is. */
  ghost predicate InWork(users: seq<User>, first: seq<seq<Task>>, bundles: seq<seq<Task>>, workers: seq<Worker>,
      scored: seq<nat>)
    requires AllKnown(users, first) && |bundles| == |first| && |scored| == |workers|
  {
    forall i :: 0 <= i < |workers| && workers[i].Putting? ==>
      var h := workers[i].task;
      0 <= h < |first| && scored[i] <= |first[h]| && bundles[h] == Partly(users, first[h], scored[i])
  }

  ghost predicate Ready(users: seq<User>, first: seq<seq<Task>>, bundles: seq<seq<Task>>, h: int)
    requires AllKnown(users, first) && |bundles| == |first|
  {
    0 <= h < |first| && bundles[h] == Scored(users, first[h])
  }

  /** A bundle that has left its worker has every task scored, once. */
  ghost predicate AllReady(users: seq<User>, first: seq<seq<Task>>, bundles: seq<seq<Task>>,
    queue: seq<int>, consumed: seq<int>, consumer: Consumer)
    requires AllKnown(users, first) && |bundles| == |first|
  {
    && (forall h :: h in queue ==> Ready(users, first, bundles, h))
    && (forall h :: h in consumed ==> Ready(users, first, bundles, h))
    && (consumer.Using? ==> Ready(users, first, bundles, consumer.task))
  }

  /** The counters are those of the bundles consumed and of the part added of the one in use. */
  ghost predicate Tallied(users: seq<User>, first: seq<seq<Task>>, consumed: seq<int>, consumer: Consumer,
      added: nat, running: Tally)
    requires AllKnown(users, first)
  {
    var done := Running(AllScored(users, first), consumed);
    match consumer
    case Using(h) =>
      0 <= h < |first| && added <= |first[h]| && running == done.Plus(BundleTally(Scored(users, first[h])[..added]))
    case _ => added == 0 && running == done
  }

  ghost predicate Shaped(users: seq<User>, first: seq<seq<Task>>, e: Evaluation) {
    && AllKnown(users, first) && |e.bundles| == |first| && |e.scored| == |e.pipe.workers|
    && |e.pipe.producers| == 1 && e.pipe.producers[0].tasks == Handles(|first|) && |e.pipe.consumers| == 1
  }

  ghost predicate Good(users: seq<User>, first: seq<seq<Task>>, e: Evaluation) {
    && Invariant(e.pipe) && Shaped(users, first, e)
    && Untouched(first, e.bundles, e.pipe.b1.queue, e.pipe.producers[0].next)
    && InWork(users, first, e.bundles, e.pipe.workers, e.scored)
    && AllReady(users, first, e.bundles, e.pipe.b2.queue, e.pipe.consumed, e.pipe.consumers[0])
    && Tallied(users, first, e.pipe.consumed, e.pipe.consumers[0], e.added, e.running)
  }

  // ----- A bundle with a worker is nowhere else -----

  lemma {:induction false} CountHandles(n: nat, k: nat, h: int)
    requires k <= n
    ensures Count(Handles(n)[..k], h) == if 0 <= h < k then 1 else 0
    decreases k
  {
    if k > 0 {
      CountHandles(n, k - 1, h);
      assert Handles(n)[..k] == Handles(n)[..k - 1] + [k - 1];
    }
  }

  lemma PutOnce(ps: seq<Producer>, n: nat, h: int)
    requires |ps| == 1 && ps[0].tasks == Handles(n) && ps[0].next <= n
    ensures Put(ps, h) == if 0 <= h < ps[0].next then 1 else 0
  {
    CountHandles(n, ps[0].next, h);
    var ns := seq(|ps|, i requires 0 <= i < |ps| => PutBy(ps[i], h));
    SumOne(ns);
    assert Put(ps, h) == Sum(ns);
  }

  lemma HeldAtLeast(ws: seq<Worker>, cs: seq<Consumer>, h: int)
    ensures HeldByWorkers(ws, h) >= 0 && HeldByConsumers(cs, h) >= 0
    ensures forall i :: 0 <= i < |ws| && ws[i] == Putting(h) ==> HeldByWorkers(ws, h) >= 1
    ensures forall i, j :: 0 <= i < j < |ws| && ws[i] == Putting(h) && ws[j] == Putting(h) ==> HeldByWorkers(ws, h) >= 2
    ensures forall i :: 0 <= i < |cs| && cs[i] == Using(h) ==> HeldByConsumers(cs, h) >= 1
  {
    var ns := seq(|ws|, i requires 0 <= i < |ws| => HeldBy(ws[i], h));
    var ms := seq(|cs|, i requires 0 <= i < |cs| => UsedBy(cs[i], h));
    SumZero(ns);
    SumZero(ms);
    forall i, j | 0 <= i <= j < |ws| && ws[i] == Putting(h) && ws[j] == Putting(h)
      ensures HeldByWorkers(ws, h) >= if i < j then 2 else 1
    {
      SumAtLeast(ns, i, j);
    }
    forall i | 0 <= i < |cs| && cs[i] == Using(h)
      ensures HeldByConsumers(cs, h) >= 1
    {
      SumAtLeast(ms, i, i);
    }
  }

  /** Each handle is put once, so the bundle a worker holds is in no buffer and with nobody else. */
  lemma HeldAlone(users: seq<User>, first: seq<seq<Task>>, e: Evaluation, i: int)
    requires Good(users, first, e) && 0 <= i < |e.pipe.workers| && e.pipe.workers[i].Putting?
    ensures var h := e.pipe.workers[i].task;
      && h !in e.pipe.b1.queue && h !in e.pipe.b2.queue && h !in e.pipe.consumed && e.pipe.consumers[0] != Using(h)
      && h < e.pipe.producers[0].next
      && forall j :: 0 <= j < |e.pipe.workers| && j != i ==> e.pipe.workers[j] != Putting(h)
  {
    var p, h := e.pipe, e.pipe.workers[i].task;
    NextInRange(p, |first|);
    PutOnce(p.producers, |first|, h);
    HeldAtLeast(p.workers, p.consumers, h);
    assert Balanced(p, h);
    OnlyOnePlace(p, h, i);
  }

  lemma NextInRange(p: Pipeline, n: nat)
    requires Invariant(p) && |p.producers| == 1 && p.producers[0].tasks == Handles(n)
    ensures p.producers[0].next <= n
  {
    hide Conserved, Seated, Awake;
  }

  lemma OnlyOnePlace(p: Pipeline, h: int, i: int)
    requires |p.consumers| == 1 && Balanced(p, h) && Put(p.producers, h) <= 1
    requires HeldByWorkers(p.workers, h) >= 1 && HeldByConsumers(p.consumers, h) >= 0
    requires p.consumers[0] == Using(h) ==> HeldByConsumers(p.consumers, h) >= 1
    requires 0 <= i < |p.workers| && p.workers[i] == Putting(h)
    requires forall a, b :: 0 <= a < b < |p.workers| && p.workers[a] == Putting(h) && p.workers[b] == Putting(h) ==>
        HeldByWorkers(p.workers, h) >= 2
    ensures h !in p.b1.queue && h !in p.b2.queue && h !in p.consumed && p.consumers[0] != Using(h)
    ensures forall j :: 0 <= j < |p.workers| && j != i ==> p.workers[j] != Putting(h)
  {
    assert h in p.b1.queue ==> h in multiset(p.b1.queue);
    assert h in p.b2.queue ==> h in multiset(p.b2.queue);
    assert h in p.consumed ==> h in multiset(p.consumed);
  }

  // ----- What every step keeps -----

  lemma PartlyNext(users: seq<User>, bundle: seq<Task>, n: nat)
    requires Known(users, bundle) && n < |bundle|
    ensures var b := Partly(users, bundle, n);
      && b[n] == bundle[n]
      && Partly(users, bundle, n + 1) == b[n := b[n].(tally := b[n].tally.Plus(ScoreOf(users[b[n].userId])))]
  {
    var b, c := Partly(users, bundle, n), Partly(users, bundle, n + 1);
    var scored := b[n].(tally := b[n].tally.Plus(ScoreOf(users[b[n].userId])));
    assert scored == Scored(users, bundle)[n];
    forall k | 0 <= k < |bundle|
      ensures c[k] == b[n := scored][k]
    {
    }
  }

  lemma PartlyEnds(users: seq<User>, bundle: seq<Task>)
    requires Known(users, bundle)
    ensures Partly(users, bundle, 0) == bundle && Partly(users, bundle, |bundle|) == Scored(users, bundle)
  {
  }

  /** Scoring changes one bundle, and of what is said about the bundles only what is said about that one. */
  lemma ScoresBundle(users: seq<User>, first: seq<seq<Task>>, bundles: seq<seq<Task>>, h: int, bundle: seq<Task>,
    queue: seq<int>, next: nat, queue2: seq<int>, consumed: seq<int>, consumer: Consumer)
    requires AllKnown(users, first) && |bundles| == |first| && 0 <= h < |first|
    requires h !in queue && h < next && h !in queue2 && h !in consumed && consumer != Using(h)
    requires Untouched(first, bundles, queue, next) && AllReady(users, first, bundles, queue2, consumed, consumer)
    ensures Untouched(first, bundles[h := bundle], queue, next)
    ensures AllReady(users, first, bundles[h := bundle], queue2, consumed, consumer)
  {
    assert forall g :: g != h && Ready(users, first, bundles, g) ==> Ready(users, first, bundles[h := bundle], g);
  }

  lemma ScoresWork(users: seq<User>, first: seq<seq<Task>>, bundles: seq<seq<Task>>, workers: seq<Worker>,
      scored: seq<nat>, i: nat, bundle: seq<Task>)
    requires AllKnown(users, first) && |bundles| == |first| && |scored| == |workers|
        && InWork(users, first, bundles, workers, scored)
    requires i < |workers| && workers[i].Putting? && scored[i] < |first[workers[i].task]|
    requires forall j :: 0 <= j < |workers| && j != i ==> workers[j] != Putting(workers[i].task)
    requires bundle == Partly(users, first[workers[i].task], scored[i] + 1)
    ensures InWork(users, first, bundles[workers[i].task := bundle], workers, scored[i := scored[i] + 1])
  {
  }

  lemma WorkAt(users: seq<User>, first: seq<seq<Task>>, bundles: seq<seq<Task>>, workers: seq<Worker>,
      scored: seq<nat>, i: nat)
    requires AllKnown(users, first) && |bundles| == |first| && |scored| == |workers|
    requires InWork(users, first, bundles, workers, scored) && i < |workers| && workers[i].Putting?
    ensures var h := workers[i].task;
      0 <= h < |first| && scored[i] <= |first[h]| == |bundles[h]| && bundles[h] == Partly(users, first[h], scored[i])
  {
  }

  lemma ScoresGood(users: seq<User>, first: seq<seq<Task>>, e: Evaluation, i: int, e': Evaluation)
    requires Good(users, first, e) && WorkerScores(users, e, i, e')
    ensures Good(users, first, e')
  {
    hide Invariant, Untouched, InWork, AllReady, Tallied, Partly, Scored;
    var p, h := e.pipe, e.pipe.workers[i].task;
    HeldAlone(users, first, e, i);
    WorkAt(users, first, e.bundles, p.workers, e.scored, i);
    PartlyNext(users, first[h], e.scored[i]);
    ScoresWork(users, first, e.bundles, p.workers, e.scored, i, e'.bundles[h]);
    ScoresBundle(users, first, e.bundles, h, e'.bundles[h], p.b1.queue, p.producers[0].next, p.b2.queue, p.consumed,
        p.consumers[0]);
  }

  lemma UsedReady(users: seq<User>, first: seq<seq<Task>>, bundles: seq<seq<Task>>, queue: seq<int>,
      consumed: seq<int>, consumer: Consumer, h: int)
    requires AllKnown(users, first) && |bundles| == |first|
        && AllReady(users, first, bundles, queue, consumed, consumer)
    requires h in queue || consumer == Using(h)
    ensures Ready(users, first, bundles, h) && 0 <= h < |first|
        && |bundles[h]| == |Scored(users, first[h])| == |first[h]|
  {
  }

  lemma AddsTally(users: seq<User>, first: seq<seq<Task>>, consumed: seq<int>, h: int, added: nat, running: Tally)
    requires AllKnown(users, first) && Tallied(users, first, consumed, Using(h), added, running) && added < |first[h]|
    ensures Tallied(users, first, consumed, Using(h), added + 1, running.Plus(Scored(users, first[h])[added].tally))
  {
    hide Running;
    var bundle := Scored(users, first[h]);
    assert bundle[..added + 1][..added] == bundle[..added];
  }

  lemma AddsGood(users: seq<User>, first: seq<seq<Task>>, e: Evaluation, e': Evaluation)
    requires Good(users, first, e) && ConsumerAdds(e, e')
    ensures Good(users, first, e')
  {
    hide Invariant, Untouched, InWork, AllReady, Tallied;
    var p, h := e.pipe, e.pipe.consumers[0].task;
    UsedReady(users, first, e.bundles, p.b2.queue, p.consumed, p.consumers[0], h);
    AddsTally(users, first, e.pipe.consumed, h, e.added, e.running);
  }

  lemma PipeStep(users: seq<User>, e: Evaluation, i: int, r: Outcome<int>, e': Evaluation)
    requires Invariant(e.pipe) && StepOf(users, e, i, r, e') && !WorkerScores(users, e, i, e') && !ConsumerAdds(e, e')
    ensures Invariant(e'.pipe)
  {
    hide Invariant;
    if ConsumerEnds(e, i, e') {
      assert Pipelines.StepOf(e.pipe, i, Waits, e'.pipe);
    } else {
      assert Pipelines.StepOf(e.pipe, i, r, e'.pipe);
    }
    StepKeeps(e.pipe, e'.pipe);
  }

  lemma TakenUntouched(first: seq<seq<Task>>, bundles: seq<seq<Task>>, queue: seq<int>, queue': seq<int>, next: nat)
    requires |bundles| == |first| && Untouched(first, bundles, queue, next) && forall h :: h in queue' ==> h in queue
    ensures Untouched(first, bundles, queue', next)
  {
  }

  lemma PoppedFrom(b: Buffer<int>, tid: ThreadId, b': Buffer<int>, r: Outcome<int>)
    requires PopTurn(b, tid, b', r)
    ensures r.Popped? ==> r.value in b.queue
    ensures forall h :: h in b'.queue ==> h in b.queue
  {
    if r.Popped? {
      assert b.queue == b'.queue + [r.value];
    }
  }

  lemma BeginsWork(users: seq<User>, first: seq<seq<Task>>, bundles: seq<seq<Task>>, workers: seq<Worker>,
      scored: seq<nat>, i: nat, h: nat)
    requires AllKnown(users, first) && |bundles| == |first| && |scored| == |workers|
        && InWork(users, first, bundles, workers, scored)
    requires i < |workers|
    requires h < |first| && bundles[h] == first[h]
    ensures InWork(users, first, bundles, workers[i := Putting(h)], scored[i := 0])
  {
    PartlyEnds(users, first[h]);
  }

  lemma StopsWork(users: seq<User>, first: seq<seq<Task>>, bundles: seq<seq<Task>>, workers: seq<Worker>,
      scored: seq<nat>, i: nat, w: Worker)
    requires AllKnown(users, first) && |bundles| == |first| && |scored| == |workers|
        && InWork(users, first, bundles, workers, scored)
    requires i < |workers| && !w.Putting?
    ensures InWork(users, first, bundles, workers[i := w], scored)
  {
  }

  lemma WorkDone(users: seq<User>, first: seq<seq<Task>>, bundles: seq<seq<Task>>, workers: seq<Worker>,
      scored: seq<nat>, i: nat)
    requires AllKnown(users, first) && |bundles| == |first| && |scored| == |workers|
        && InWork(users, first, bundles, workers, scored)
    requires i < |workers| && workers[i].Putting? && scored[i] >= SizeOf(bundles, workers[i].task)
    ensures Ready(users, first, bundles, workers[i].task)
  {
    PartlyEnds(users, first[workers[i].task]);
  }

  /** What enters the second buffer, the consumer's hand or the list of bundles consumed is ready. */
  lemma MovesReady(users: seq<User>, first: seq<seq<Task>>, bundles: seq<seq<Task>>, h: int,
    queue: seq<int>, consumed: seq<int>, consumer: Consumer, queue': seq<int>, consumed': seq<int>, consumer': Consumer)
    requires AllKnown(users, first) && |bundles| == |first|
        && AllReady(users, first, bundles, queue, consumed, consumer)
    requires Ready(users, first, bundles, h)
    requires forall g :: g in queue' ==> g == h || g in queue
    requires forall g :: g in consumed' ==> g == h || g in consumed
    requires consumer'.Using? ==> consumer' == consumer || consumer'.task == h
    ensures AllReady(users, first, bundles, queue', consumed', consumer')
  {
    hide Ready;
  }

  lemma FirstIsUntouched(first: seq<seq<Task>>, bundles: seq<seq<Task>>, queue: seq<int>, next: nat, h: int)
    requires |bundles| == |first| && Untouched(first, bundles, queue, next) && h in queue
    ensures 0 <= h < |first| && bundles[h] == first[h]
  {
  }

  lemma BeginsGood(users: seq<User>, first: seq<seq<Task>>, e: Evaluation, i: int, r: Outcome<int>, e': Evaluation)
    requires Good(users, first, e) && WorkerBegins(e, i, r, e') && Invariant(e'.pipe)
    ensures Good(users, first, e')
  {
    hide Invariant, InWork, Untouched, AllReady, Tallied, PopTurn;
    var p, p' := e.pipe, e'.pipe;
    PoppedFrom(p.b1, i, p'.b1, r);
    TakenUntouched(first, e.bundles, p.b1.queue, p'.b1.queue, p.producers[0].next);
    if r.Popped? {
      FirstIsUntouched(first, e.bundles, p.b1.queue, p.producers[0].next, r.value);
      BeginsWork(users, first, e.bundles, p.workers, e.scored, i, r.value);
    } else if r.Returns? {
      StopsWork(users, first, e.bundles, p.workers, e.scored, i, Quitting);
    }
  }

  lemma EndsGood(users: seq<User>, first: seq<seq<Task>>, e: Evaluation, i: int, r: Outcome<int>, e': Evaluation)
    requires Good(users, first, e) && WorkerEnds(e, i, r, e') && Invariant(e'.pipe)
    ensures Good(users, first, e')
  {
    hide Invariant, InWork, Untouched, AllReady, Tallied, Ready;
    var p, p' := e.pipe, e'.pipe;
    if !r.Waits? {
      WorkDone(users, first, e.bundles, p.workers, e.scored, i);
      StopsWork(users, first, e.bundles, p.workers, e.scored, i, Getting);
      MovesReady(users, first, e.bundles, p.workers[i].task, p.b2.queue, p.consumed, p.consumers[0], p'.b2.queue,
          p'.consumed, p'.consumers[0]);
    }
  }

  lemma ConsumedNext(users: seq<User>, first: seq<seq<Task>>, consumed: seq<int>, h: int)
    requires AllKnown(users, first) && 0 <= h < |first|
    ensures var done, bundle := Running(AllScored(users, first), consumed), Scored(users, first[h]);
      Running(AllScored(users, first), consumed + [h]) == done.Plus(BundleTally(bundle[..|bundle|]))
  {
    var bundle := Scored(users, first[h]);
    assert bundle[..|bundle|] == bundle;
    assert (consumed + [h])[..|consumed|] == consumed;
  }

  lemma UsedTally(users: seq<User>, first: seq<seq<Task>>, consumed: seq<int>, h: int, added: nat, running: Tally)
    requires AllKnown(users, first) && Tallied(users, first, consumed, Using(h), added, running)
        && added >= |Scored(users, first[h])|
    ensures Tallied(users, first, consumed + [h], Asking, 0, running)
  {
    ConsumedNext(users, first, consumed, h);
  }

  lemma ConsumerEndsGood(users: seq<User>, first: seq<seq<Task>>, e: Evaluation, i: int, e': Evaluation)
    requires Good(users, first, e) && ConsumerEnds(e, i, e') && Invariant(e'.pipe)
    ensures Good(users, first, e')
  {
    hide Invariant, InWork, Untouched, AllReady, Tallied, Ready, Scored;
    var p, p', h := e.pipe, e'.pipe, e.pipe.consumers[0].task;
    UsedReady(users, first, e.bundles, p.b2.queue, p.consumed, p.consumers[0], h);
    UsedTally(users, first, p.consumed, h, e.added, e.running);
    MovesReady(users, first, e.bundles, h, p.b2.queue, p.consumed, p.consumers[0], p'.b2.queue, p'.consumed,
        p'.consumers[0]);
  }

  lemma ProducerPutsGood(users: seq<User>, first: seq<seq<Task>>, e: Evaluation, i: int, r: Outcome<int>,
      e': Evaluation)
    requires Good(users, first, e) && ProducerPuts(e.pipe, i, r, e'.pipe) && e' == e.(pipe := e'.pipe)
        && Invariant(e'.pipe)
    ensures Good(users, first, e')
  {
    hide Invariant, InWork, AllReady, Tallied;
  }

  lemma ProducerQuitsGood(users: seq<User>, first: seq<seq<Task>>, e: Evaluation, i: int, r: Outcome<int>,
      e': Evaluation)
    requires Good(users, first, e) && ProducerQuits(e.pipe, i, r, e'.pipe) && e' == e.(pipe := e'.pipe)
        && Invariant(e'.pipe)
    ensures Good(users, first, e')
  {
    hide Invariant, Untouched, InWork, AllReady, Tallied;
  }

  lemma WorkerQuitsGood(users: seq<User>, first: seq<seq<Task>>, e: Evaluation, i: int, r: Outcome<int>, e': Evaluation)
    requires Good(users, first, e) && Invariant(e'.pipe) && e' == e.(pipe := e'.pipe)
    requires WorkerQuits(e.pipe, i, r, e'.pipe) || WorkerLeaves(e.pipe, i, r, e'.pipe)
    ensures Good(users, first, e')
  {
    hide Invariant, InWork, Untouched, AllReady, Tallied;
    TakenUntouched(first, e.bundles, e.pipe.b1.queue, e'.pipe.b1.queue, e.pipe.producers[0].next);
    StopsWork(users, first, e.bundles, e.pipe.workers, e.scored, i, e'.pipe.workers[i]);
  }

  lemma GetsTally(users: seq<User>, first: seq<seq<Task>>, consumed: seq<int>, h: nat, added: nat, running: Tally)
    requires AllKnown(users, first) && Tallied(users, first, consumed, Asking, added, running) && h < |first|
    ensures Tallied(users, first, consumed, Using(h), added, running)
  {
    hide Running, Known, Scored;
    assert Scored(users, first[h])[..0] == [];
    assert BundleTally([]) == ZERO;
  }

  lemma StopsTally(users: seq<User>, first: seq<seq<Task>>, consumed: seq<int>, consumer: Consumer, added: nat,
      running: Tally)
    requires AllKnown(users, first) && Tallied(users, first, consumed, Asking, added, running) && !consumer.Using?
    ensures Tallied(users, first, consumed, consumer, added, running)
  {
  }

  /** What leaves the second buffer and the consumer's hand takes nothing from what is ready. */
  lemma DropsReady(users: seq<User>, first: seq<seq<Task>>, bundles: seq<seq<Task>>,
    queue: seq<int>, consumed: seq<int>, consumer: Consumer, queue': seq<int>, consumer': Consumer)
    requires AllKnown(users, first) && |bundles| == |first|
        && AllReady(users, first, bundles, queue, consumed, consumer)
    requires (forall g :: g in queue' ==> g in queue) && !consumer'.Using?
    ensures AllReady(users, first, bundles, queue', consumed, consumer')
  {
    hide Ready;
  }

  lemma GetsGood(users: seq<User>, first: seq<seq<Task>>, e: Evaluation, i: int, r: Outcome<int>, e': Evaluation)
    requires Good(users, first, e) && ConsumerGets(e.pipe, i, r, e'.pipe) && e' == e.(pipe := e'.pipe)
        && Invariant(e'.pipe)
    ensures Good(users, first, e')
  {
    hide Invariant, InWork, Untouched, AllReady, Tallied, Ready, Scored, PopTurn;
    var p, p' := e.pipe, e'.pipe;
    PoppedFrom(p.b2, i, p'.b2, r);
    if r.Popped? {
      UsedReady(users, first, e.bundles, p.b2.queue, p.consumed, p.consumers[0], r.value);
      GetsTally(users, first, p.consumed, r.value, e.added, e.running);
      MovesReady(users, first, e.bundles, r.value, p.b2.queue, p.consumed, p.consumers[0], p'.b2.queue, p'.consumed,
          p'.consumers[0]);
    } else {
      StopsTally(users, first, p.consumed, p'.consumers[0], e.added, e.running);
      DropsReady(users, first, e.bundles, p.b2.queue, p.consumed, p.consumers[0], p'.b2.queue, p'.consumers[0]);
    }
  }

  lemma ConsumerQuitsGood(users: seq<User>, first: seq<seq<Task>>, e: Evaluation, i: int, r: Outcome<int>,
      e': Evaluation)
    requires Good(users, first, e) && ConsumerQuits(e.pipe, i, r, e'.pipe) && e' == e.(pipe := e'.pipe)
        && Invariant(e'.pipe)
    ensures Good(users, first, e')
  {
    hide Invariant, Untouched, InWork, Ready, Running;
  }

  lemma OtherGood(users: seq<User>, first: seq<seq<Task>>, e: Evaluation, i: int, r: Outcome<int>, e': Evaluation)
    requires Good(users, first, e) && OtherTurn(e, i, r, e') && Invariant(e'.pipe)
    ensures Good(users, first, e')
  {
    hide Good, Invariant, ProducerPuts, ProducerQuits, WorkerQuits, WorkerLeaves, ConsumerGets, ConsumerQuits;
    if ConsumerGets(e.pipe, i, r, e'.pipe) {
      GetsGood(users, first, e, i, r, e');
    } else if ProducerPuts(e.pipe, i, r, e'.pipe) {
      ProducerPutsGood(users, first, e, i, r, e');
    } else if ProducerQuits(e.pipe, i, r, e'.pipe) {
      ProducerQuitsGood(users, first, e, i, r, e');
    } else if ConsumerQuits(e.pipe, i, r, e'.pipe) {
      ConsumerQuitsGood(users, first, e, i, r, e');
    } else {
      WorkerQuitsGood(users, first, e, i, r, e');
    }
  }

  lemma StepGood(users: seq<User>, first: seq<seq<Task>>, e: Evaluation, e': Evaluation)
    requires Good(users, first, e) && Next(users, e, e')
    ensures Good(users, first, e')
  {
    hide Good, WorkerScores, ConsumerAdds, WorkerBegins, WorkerEnds, ConsumerEnds, OtherTurn;
    var i, r :| StepOf(users, e, i, r, e');
    GoodPipe(users, first, e);
    if WorkerScores(users, e, i, e') {
      ScoresGood(users, first, e, i, e');
    } else if ConsumerAdds(e, e') {
      AddsGood(users, first, e, e');
    } else {
      PipeStep(users, e, i, r, e');
      if WorkerBegins(e, i, r, e') {
        BeginsGood(users, first, e, i, r, e');
      } else if WorkerEnds(e, i, r, e') {
        EndsGood(users, first, e, i, r, e');
      } else if ConsumerEnds(e, i, e') {
        ConsumerEndsGood(users, first, e, i, e');
      } else {
        OtherGood(users, first, e, i, r, e');
      }
    }
  }

  lemma GoodPipe(users: seq<User>, first: seq<seq<Task>>, e: Evaluation)
    requires Good(users, first, e)
    ensures Invariant(e.pipe)
  {
  }

  lemma StartGood(users: seq<User>, first: seq<seq<Task>>, e: Evaluation, size1: nat, size2: nat)
    requires AllKnown(users, first) && Starts(first, e, size1, size2)
    ensures Good(users, first, e)
  {
    hide Invariant;
    StartKeeps(e.pipe, size1, size2);
  }

  // ----- Whole runs -----

  ghost predicate IsRun(users: seq<User>, first: seq<seq<Task>>, run: seq<Evaluation>, size1: nat, size2: nat) {
    && |run| > 0 && Starts(first, run[0], size1, size2)
    && forall k :: 0 <= k < |run| - 1 ==> Next(users, run[k], run[k + 1])
  }

  lemma {:induction false} RunGood(users: seq<User>, first: seq<seq<Task>>, run: seq<Evaluation>, size1: nat,
      size2: nat, k: nat)
    requires AllKnown(users, first) && IsRun(users, first, run, size1, size2) && k < |run|
    ensures Good(users, first, run[k])
    decreases k
  {
    hide Good;
    if k == 0 {
      StartGood(users, first, run[0], size1, size2);
    } else {
      RunGood(users, first, run, size1, size2, k - 1);
      assert Next(users, run[k - 1], run[k - 1 + 1]);
      StepGood(users, first, run[k - 1], run[k]);
    }
  }

  lemma ConsumedAll(p: Pipeline, n: nat)
    requires Invariant(p) && Finished(p) && |p.producers| == 1 && p.producers[0].tasks == Handles(n)
    ensures multiset(p.consumed) == multiset(Handles(n))
  {
    forall task
      ensures multiset(p.consumed)[task] == multiset(Handles(n))[task]
    {
      assert Balanced(p, task);
      FinishedBalance(p, task);
      var ps := p.producers;
      var ns := seq(|ps|, i requires 0 <= i < |ps| => Count(ps[i].tasks, task));
      SumOne(ns);
      assert Planned(ps, task) == Sum(ns);
    }
  }

  /**
   On every schedule, once the evaluation has finished, the counters that the consumer has added up are
   those of the single-threaded loop.
   */
  lemma MatchesSingleThread(users: seq<User>, first: seq<seq<Task>>, run: seq<Evaluation>, size1: nat, size2: nat,
      k: nat)
    requires Fresh(Flatten(first), |users|)
    requires IsRun(users, first, run, size1, size2) && k < |run| && Finished(run[k].pipe)
    ensures run[k].running == Total(users) && CountsUp(users, run[k].running)
  {
    hide CountsUp, Total;
    TotalCounts(users);
    BundlesKnown(users, first);
    RunGood(users, first, run, size1, size2, k);
    var p := run[k].pipe;
    NobodyListens(p.consumers);
    assert p.consumers[0].Stopped? by {
      assert 0 !in Listening(p.consumers);
    }
    ConsumedAll(p, |first|);
    RunningPermutes(AllScored(users, first), p.consumed, Handles(|first|));
    AllBundlesTotal(users, first);
  }
}
