/**
 The bounded buffer between producers and consumers: a monitor with two condition variables, alive
 counters and quit and fail flags. The first module gives every turn under the mutex as a relation
 on values; the class at the end updates its fields in place and is proved to take those turns.
 */
module BufferTurns {

  type ThreadId = nat

  datatype Code = Succ | BufferFailed | NoAliveConsumer | NoMoreObject | TryPushFailed | TryPopFailed
                | UnexpectedProducerQuit | UnexpectedConsumerQuit

  /** How one turn under the mutex ends: back in the wait, or out of the method. */
  datatype Outcome<T> = Waits | Pushed(id: int) | Popped(value: T, id: int) | Returns(code: Code)

  /** The threads blocked on a condition variable, and those notified that do not hold the mutex yet. */
  datatype Condition = Condition(parked: set<ThreadId>, notified: set<ThreadId>) {
    function Without(tid: ThreadId): Condition {
      Condition(parked - {tid}, notified - {tid})
    }
    function Park(tid: ThreadId): Condition {
      Condition(parked + {tid}, notified - {tid})
    }
    function NotifyAll(): Condition {
      Condition({}, parked + notified)
    }
    /** Some parked thread is woken, if there is one. */
    ghost predicate NotifiedOne(after: Condition) {
      if parked == {} then after == this else
        exists p :: p in parked && after == Condition(parked - {p}, notified + {p})
    }
  }

  /** `queue[0]` is the front: objects enter at the front and leave at the back. */
  datatype Buffer<T> = Buffer(
    maxSize: nat, numProducer: nat, numConsumer: nat, aliveProducers: nat, aliveConsumers: nat,
    objectId: int, queue: seq<T>, noAliveProducer: bool, noAliveConsumer: bool, failed: bool,
    notFull: Condition, notEmpty: Condition)

  function NewBuffer<T>(maxSize: nat, numProducer: nat, numConsumer: nat): Buffer<T> {
    Buffer(maxSize, numProducer, numConsumer, numProducer, numConsumer, 0, [], false, false, false,
           Condition({}, {}), Condition({}, {}))
  }

  predicate MustWaitToPush<T>(b: Buffer<T>) {
    !b.failed && !b.noAliveConsumer && |b.queue| >= b.maxSize
  }

  predicate MustWaitToPop<T>(b: Buffer<T>) {
    !b.failed && !b.noAliveProducer && |b.queue| == 0
  }

  /** The object enters the queue and one consumer is notified. */
  ghost predicate Enters<T>(b: Buffer<T>, t: T, b': Buffer<T>, r: Outcome<T>) {
    && r == Pushed(b.objectId)
    && b.notEmpty.NotifiedOne(b'.notEmpty)
    && b' == b.(objectId := b.objectId + 1, queue := [t] + b.queue, notEmpty := b'.notEmpty)
  }

  /** The object at the back leaves the queue and one producer is notified. */
  ghost predicate Leaves<T>(b: Buffer<T>, b': Buffer<T>, r: Outcome<T>)
    requires |b.queue| > 0
  {
    && r == Popped(b.queue[|b.queue| - 1], b.objectId - |b.queue|)
    && b.notFull.NotifiedOne(b'.notFull)
    && b' == b.(queue := b.queue[..|b.queue| - 1], notFull := b'.notFull)
  }

  /** One turn of Push by a thread that calls it, or that wakes up inside it, notified or not. */
  ghost predicate PushTurn<T>(b: Buffer<T>, tid: ThreadId, t: T, b': Buffer<T>, r: Outcome<T>) {
    if MustWaitToPush(b) then
      r == Waits && b' == b.(notFull := b.notFull.Park(tid))
    else
      var c := b.(notFull := b.notFull.Without(tid));
      if b.failed then r == Returns(BufferFailed) && b' == c
      else if b.noAliveConsumer then r == Returns(NoAliveConsumer) && b' == c
      else Enters(c, t, b', r)
  }

  ghost predicate TryPushTurn<T>(b: Buffer<T>, t: T, b': Buffer<T>, r: Outcome<T>) {
    if b.failed then r == Returns(BufferFailed) && b' == b
    else if b.noAliveConsumer then r == Returns(NoAliveConsumer) && b' == b
    else if |b.queue| >= b.maxSize then r == Returns(TryPushFailed) && b' == b
    else Enters(b, t, b', r)
  }

  ghost predicate PopTurn<T>(b: Buffer<T>, tid: ThreadId, b': Buffer<T>, r: Outcome<T>) {
    if MustWaitToPop(b) then
      r == Waits && b' == b.(notEmpty := b.notEmpty.Park(tid))
    else
      var c := b.(notEmpty := b.notEmpty.Without(tid));
      if b.failed then r == Returns(BufferFailed) && b' == c
      else if |b.queue| == 0 then r == Returns(NoMoreObject) && b' == c
      else Leaves(c, b', r)
  }

  ghost predicate TryPopTurn<T>(b: Buffer<T>, b': Buffer<T>, r: Outcome<T>) {
    if b.failed then r == Returns(BufferFailed) && b' == b
    else if |b.queue| == 0 then r == Returns(if b.noAliveProducer then NoMoreObject else TryPopFailed) && b' == b
    else Leaves(b, b', r)
  }

  /** The last producer to quit wakes every consumer. */
  ghost predicate ProducerQuitTurn<T>(b: Buffer<T>, b': Buffer<T>, r: Outcome<T>) {
    if b.failed then r == Returns(BufferFailed) && b' == b
    else if b.numProducer == 0 || b.aliveProducers == 0 then r == Returns(UnexpectedProducerQuit) && b' == b
    else
      && r == Returns(Succ)
      && b' == if b.aliveProducers == 1
               then b.(aliveProducers := 0, noAliveProducer := true, notEmpty := b.notEmpty.NotifyAll())
               else b.(aliveProducers := b.aliveProducers - 1)
  }

  /** The last consumer to quit empties the queue and wakes every producer. */
  ghost predicate ConsumerQuitTurn<T>(b: Buffer<T>, b': Buffer<T>, r: Outcome<T>) {
    if b.failed then r == Returns(BufferFailed) && b' == b
    else if b.numConsumer == 0 || b.aliveConsumers == 0 then r == Returns(UnexpectedConsumerQuit) && b' == b
    else
      && r == Returns(Succ)
      && b' == if b.aliveConsumers == 1
               then b.(aliveConsumers := 0, noAliveConsumer := true, queue := [], notFull := b.notFull.NotifyAll())
               else b.(aliveConsumers := b.aliveConsumers - 1)
  }

  ghost predicate ClearTurn<T>(b: Buffer<T>, b': Buffer<T>, r: Outcome<T>) {
    r == Returns(Succ) && b' == b.(queue := [])
  }

  ghost predicate ForceFailTurn<T>(b: Buffer<T>, b': Buffer<T>, r: Outcome<T>) {
    && r == Returns(Succ)
    && b' == b.(failed := true, queue := [], notFull := b.notFull.NotifyAll(), notEmpty := b.notEmpty.NotifyAll())
  }

  datatype Call<T> = Push(tid: ThreadId, t: T) | TryPush(t: T) | Pop(tid: ThreadId) | TryPop
                   | ProducerQuit | ConsumerQuit | Clear | ForceFail

  ghost predicate Turn<T>(b: Buffer<T>, call: Call<T>, b': Buffer<T>, r: Outcome<T>) {
    match call
    case Push(tid, t) => PushTurn(b, tid, t, b', r)
    case TryPush(t) => TryPushTurn(b, t, b', r)
    case Pop(tid) => PopTurn(b, tid, b', r)
    case TryPop => TryPopTurn(b, b', r)
    case ProducerQuit => ProducerQuitTurn(b, b', r)
    case ConsumerQuit => ConsumerQuitTurn(b, b', r)
    case Clear => ClearTurn(b, b', r)
    case ForceFail => ForceFailTurn(b, b', r)
  }

  // ----- No lost wakeups -----

  ghost predicate Apart(c: Condition) {
    c.parked !! c.notified
  }

  /** While a consumer is parked, every queued object has a notified consumer on its way. */
  ghost predicate ConsumersAwake<T>(b: Buffer<T>) {
    && Apart(b.notEmpty)
    && (b.notEmpty.parked != {} ==> |b.queue| <= |b.notEmpty.notified| && !b.failed && !b.noAliveProducer)
  }

  /** While a producer is parked, every free slot has a notified producer on its way. */
  ghost predicate ProducersAwake<T>(b: Buffer<T>) {
    && Apart(b.notFull)
    && (b.notFull.parked != {} ==> b.maxSize - |b.queue| <= |b.notFull.notified| && !b.failed && !b.noAliveConsumer)
  }

  lemma NotifyOneCounts(c: Condition, c': Condition)
    requires Apart(c) && c.NotifiedOne(c')
    ensures Apart(c') && c'.parked <= c.parked && c.notified <= c'.notified
    ensures c'.parked + c'.notified == c.parked + c.notified
    ensures c.parked != {} ==> |c'.notified| == |c.notified| + 1
  {
  }

  lemma WithoutCounts(c: Condition, tid: ThreadId)
    requires Apart(c)
    ensures Apart(c.Without(tid)) && Apart(c.Park(tid))
    ensures |c.Without(tid).notified| >= |c.notified| - 1
  {
    assert c.notified <= c.Without(tid).notified + {tid};
    assert c.notified == c.Without(tid).notified || c.notified == c.Without(tid).notified + {tid};
  }

  lemma EntersKeepsConsumers<T>(b: Buffer<T>, t: T, b': Buffer<T>, r: Outcome<T>)
    requires ConsumersAwake(b) && Enters(b, t, b', r)
    ensures ConsumersAwake(b')
  {
    NotifyOneCounts(b.notEmpty, b'.notEmpty);
  }

  lemma LeavesKeepsProducers<T>(b: Buffer<T>, b': Buffer<T>, r: Outcome<T>)
    requires ProducersAwake(b) && |b.queue| > 0 && Leaves(b, b', r)
    ensures ProducersAwake(b')
  {
    NotifyOneCounts(b.notFull, b'.notFull);
  }

  lemma PushKeepsConsumers<T>(b: Buffer<T>, tid: ThreadId, t: T, b': Buffer<T>, r: Outcome<T>)
    requires ConsumersAwake(b) && PushTurn(b, tid, t, b', r)
    ensures ConsumersAwake(b')
  {
    var c := b.(notFull := b.notFull.Without(tid));
    if r.Pushed? {
      EntersKeepsConsumers(c, t, b', r);
    }
  }

  lemma PopKeepsConsumers<T>(b: Buffer<T>, tid: ThreadId, b': Buffer<T>, r: Outcome<T>)
    requires ConsumersAwake(b) && PopTurn(b, tid, b', r)
    ensures ConsumersAwake(b')
  {
    WithoutCounts(b.notEmpty, tid);
  }

  lemma PushKeepsProducers<T>(b: Buffer<T>, tid: ThreadId, t: T, b': Buffer<T>, r: Outcome<T>)
    requires ProducersAwake(b) && PushTurn(b, tid, t, b', r)
    ensures ProducersAwake(b')
  {
    WithoutCounts(b.notFull, tid);
  }

  lemma PopKeepsProducers<T>(b: Buffer<T>, tid: ThreadId, b': Buffer<T>, r: Outcome<T>)
    requires ProducersAwake(b) && PopTurn(b, tid, b', r)
    ensures ProducersAwake(b')
  {
    var c := b.(notEmpty := b.notEmpty.Without(tid));
    if r.Popped? {
      LeavesKeepsProducers(c, b', r);
    }
  }

  /** Every turn keeps the consumers' half, Clear included. */
  lemma ConsumersStayAwake<T>(b: Buffer<T>, call: Call<T>, b': Buffer<T>, r: Outcome<T>)
    requires ConsumersAwake(b) && Turn(b, call, b', r)
    ensures ConsumersAwake(b')
  {
    match call
    case Push(tid, t) => PushKeepsConsumers(b, tid, t, b', r);
    case TryPush(t) =>
      if r.Pushed? {
        EntersKeepsConsumers(b, t, b', r);
      }
    case Pop(tid) => PopKeepsConsumers(b, tid, b', r);
    case _ =>
  }

  /** Every turn but Clear keeps the producers' half. */
  lemma ProducersStayAwake<T>(b: Buffer<T>, call: Call<T>, b': Buffer<T>, r: Outcome<T>)
    requires ProducersAwake(b) && Turn(b, call, b', r) && !call.Clear?
    ensures ProducersAwake(b')
  {
    match call
    case Push(tid, t) => PushKeepsProducers(b, tid, t, b', r);
    case Pop(tid) => PopKeepsProducers(b, tid, b', r);
    case TryPop =>
      if r.Popped? {
        LeavesKeepsProducers(b, b', r);
      }
    case _ =>
  }

  /**
   Clear frees slots without notifying: it keeps the producers' half exactly when enough producers are notified
   already.
   */
  lemma ClearAndProducers<T>(b: Buffer<T>, b': Buffer<T>, r: Outcome<T>)
    requires ProducersAwake(b) && Turn(b, Clear, b', r)
    ensures ProducersAwake(b') <==> (b.notFull.parked == {} || b.maxSize <= |b.notFull.notified|)
  {
  }
}

/** What holds over every run of a buffer. */
module BufferRuns {
  import opened BufferTurns

  datatype Move<T> = Move(call: Call<T>, outcome: Outcome<T>)

  ghost predicate IsRun<T>(states: seq<Buffer<T>>, moves: seq<Move<T>>, maxSize: nat, numProducer: nat,
      numConsumer: nat)
  {
    && |states| == |moves| + 1
    && states[0] == NewBuffer(maxSize, numProducer, numConsumer)
    && forall i :: 0 <= i < |moves| ==> Turn(states[i], moves[i].call, states[i + 1], moves[i].outcome)
  }

  ghost function PushedObject<T>(move: Move<T>): seq<T> {
    if !move.outcome.Pushed? then []
    else if move.call.Push? || move.call.TryPush? then [move.call.t]
    else []
  }

  /** The objects pushed, in order; the id of an object is its index here. */
  ghost function History<T>(moves: seq<Move<T>>): seq<T> {
    if |moves| == 0 then [] else History(moves[..|moves| - 1]) + PushedObject(moves[|moves| - 1])
  }

  /** The queue holds the newest objects of the history, with contiguous ids, within the capacity. */
  ghost predicate Holds<T>(b: Buffer<T>, history: seq<T>) {
    && b.objectId == |history|
    && |b.queue| <= b.maxSize && |b.queue| <= |history|
    && forall i :: 0 <= i < |b.queue| ==> b.queue[i] == history[b.objectId - 1 - i]
  }

  /** The id of the oldest object still queued, or the next id when there is none. */
  ghost function Oldest<T>(b: Buffer<T>): int {
    b.objectId - |b.queue|
  }

  ghost predicate MovesOn<T>(b: Buffer<T>, b': Buffer<T>, move: Move<T>) {
    && Oldest(b) <= Oldest(b')
    && (move.outcome.Popped? ==> move.outcome.id == Oldest(b) && Oldest(b') == Oldest(b) + 1)
  }

  /** A popped object is the one pushed under the id that comes with it. */
  ghost predicate TrueId<T>(move: Move<T>, history: seq<T>) {
    move.outcome.Popped? ==> 0 <= move.outcome.id < |history| && move.outcome.value == history[move.outcome.id]
  }

  lemma EntersHolds<T>(b: Buffer<T>, history: seq<T>, t: T, b': Buffer<T>, r: Outcome<T>)
    requires Holds(b, history) && |b.queue| < b.maxSize && Enters(b, t, b', r)
    ensures Holds(b', history + [t]) && Oldest(b') == Oldest(b)
  {
  }

  lemma LeavesHolds<T>(b: Buffer<T>, history: seq<T>, b': Buffer<T>, move: Move<T>)
    requires Holds(b, history) && |b.queue| > 0 && Leaves(b, b', move.outcome)
    ensures Holds(b', history) && TrueId(move, history) && MovesOn(b, b', move)
  {
  }

  lemma PushHolds<T>(b: Buffer<T>, history: seq<T>, move: Move<T>, b': Buffer<T>)
    requires Holds(b, history) && (move.call.Push? || move.call.TryPush?) && Turn(b, move.call, b', move.outcome)
    ensures Holds(b', history + PushedObject(move)) && !move.outcome.Popped? && MovesOn(b, b', move)
  {
    if move.outcome.Pushed? {
      var c := if move.call.Push? then b.(notFull := b.notFull.Without(move.call.tid)) else b;
      EntersHolds(c, history, move.call.t, b', move.outcome);
    } else {
      assert history + [] == history;
    }
  }

  lemma PopHolds<T>(b: Buffer<T>, history: seq<T>, move: Move<T>, b': Buffer<T>)
    requires Holds(b, history) && (move.call.Pop? || move.call.TryPop?) && Turn(b, move.call, b', move.outcome)
    ensures Holds(b', history) && TrueId(move, history) && MovesOn(b, b', move) && !move.outcome.Pushed?
  {
    if move.outcome.Popped? {
      var c := if move.call.Pop? then b.(notEmpty := b.notEmpty.Without(move.call.tid)) else b;
      LeavesHolds(c, history, b', move);
    }
  }

  /** Every turn keeps the ids contiguous, the order first in first out, and the size within the capacity. */
  lemma TurnHolds<T>(b: Buffer<T>, history: seq<T>, move: Move<T>, b': Buffer<T>)
    requires Holds(b, history) && Turn(b, move.call, b', move.outcome)
    ensures Holds(b', history + PushedObject(move))
    ensures TrueId(move, history) && MovesOn(b, b', move)
  {
    if move.call.Push? || move.call.TryPush? {
      PushHolds(b, history, move, b');
    } else {
      assert history + [] == history;
      if move.call.Pop? || move.call.TryPop? {
        PopHolds(b, history, move, b');
      }
    }
  }

  /** In every run each state holds the contiguous tail of what was pushed, never more than its capacity. */
  lemma {:induction false} RunHolds<T>(states: seq<Buffer<T>>, moves: seq<Move<T>>, maxSize: nat, numProducer: nat,
      numConsumer: nat, k: nat)
    requires IsRun(states, moves, maxSize, numProducer, numConsumer) && k <= |moves|
    ensures Holds(states[k], History(moves[..k])) && states[k].maxSize == maxSize
    decreases k
  {
    if k > 0 {
      RunHolds(states, moves, maxSize, numProducer, numConsumer, k - 1);
      assert Turn(states[k - 1], moves[k - 1].call, states[k - 1 + 1], moves[k - 1].outcome);
      assert moves[..k][..k - 1] == moves[..k - 1];
      TurnHolds(states[k - 1], History(moves[..k - 1]), moves[k - 1], states[k]);
    }
  }

  lemma {:induction false} OldestGrows<T>(states: seq<Buffer<T>>, moves: seq<Move<T>>, maxSize: nat,
      numProducer: nat, numConsumer: nat, j: nat, k: nat)
    requires IsRun(states, moves, maxSize, numProducer, numConsumer) && j <= k <= |moves|
    ensures Oldest(states[j]) <= Oldest(states[k])
    decreases k
  {
    if j < k {
      OldestGrows(states, moves, maxSize, numProducer, numConsumer, j, k - 1);
      RunHolds(states, moves, maxSize, numProducer, numConsumer, k - 1);
      assert Turn(states[k - 1], moves[k - 1].call, states[k - 1 + 1], moves[k - 1].outcome);
      TurnHolds(states[k - 1], History(moves[..k - 1]), moves[k - 1], states[k]);
    }
  }

  /** Every pop returns the object pushed under the id it returns, and later pops return later ids. */
  lemma PopsInPushOrder<T>(states: seq<Buffer<T>>, moves: seq<Move<T>>, maxSize: nat, numProducer: nat,
      numConsumer: nat, j: nat, k: nat)
    requires IsRun(states, moves, maxSize, numProducer, numConsumer) && j < k < |moves|
    requires moves[j].outcome.Popped? && moves[k].outcome.Popped?
    ensures TrueId(moves[j], History(moves[..j])) && TrueId(moves[k], History(moves[..k]))
    ensures moves[j].outcome.id < moves[k].outcome.id
  {
    RunHolds(states, moves, maxSize, numProducer, numConsumer, j);
    RunHolds(states, moves, maxSize, numProducer, numConsumer, k);
    assert Turn(states[j], moves[j].call, states[j + 1], moves[j].outcome);
    assert Turn(states[k], moves[k].call, states[k + 1], moves[k].outcome);
    TurnHolds(states[j], History(moves[..j]), moves[j], states[j + 1]);
    TurnHolds(states[k], History(moves[..k]), moves[k], states[k + 1]);
    OldestGrows(states, moves, maxSize, numProducer, numConsumer, j + 1, k);
  }

  // ----- What every call returns, from the history of calls alone -----

  ghost predicate Failed<T>(moves: seq<Move<T>>) {
    exists i :: 0 <= i < |moves| && moves[i].call.ForceFail?
  }

  ghost function ProducersGone<T>(moves: seq<Move<T>>): nat {
    if |moves| == 0 then 0 else
      var last := moves[|moves| - 1];
      ProducersGone(moves[..|moves| - 1]) + if last.call.ProducerQuit? && last.outcome == Returns(Succ) then 1 else 0
  }

  ghost function ConsumersGone<T>(moves: seq<Move<T>>): nat {
    if |moves| == 0 then 0 else
      var last := moves[|moves| - 1];
      ConsumersGone(moves[..|moves| - 1]) + if last.call.ConsumerQuit? && last.outcome == Returns(Succ) then 1 else 0
  }

  /** Some producers or consumers were announced, and as many have quit. */
  predicate Over(announced: nat, gone: nat) {
    announced > 0 && gone == announced
  }

  /** Pushes less pops, since the last Clear, ForceFail or quit of the last consumer. */
  ghost function StoredNow<T>(moves: seq<Move<T>>, numConsumer: nat): int {
    if |moves| == 0 then 0 else
      var before, last := StoredNow(moves[..|moves| - 1], numConsumer), moves[|moves| - 1];
      if last.call.Clear? || last.call.ForceFail? then 0
      else if last.call.ConsumerQuit? && last.outcome == Returns(Succ) && Over(numConsumer, ConsumersGone(moves)) then 0
      else if last.outcome.Pushed? then before + 1
      else if last.outcome.Popped? then before - 1
      else before
  }

  ghost function Expected<T>(moves: seq<Move<T>>, call: Call<T>, maxSize: nat, numProducer: nat,
      numConsumer: nat): Outcome<T>
    requires 0 <= StoredNow(moves, numConsumer) <= |History(moves)|
  {
    var stored, history := StoredNow(moves, numConsumer), History(moves);
    if call.Clear? || call.ForceFail? then Returns(Succ)
    else if Failed(moves) then Returns(BufferFailed)
    else if call.Push? || call.TryPush? then
      if Over(numConsumer, ConsumersGone(moves)) then Returns(NoAliveConsumer)
      else if stored < maxSize then Pushed(|history|)
      else if call.Push? then Waits
      else Returns(TryPushFailed)
    else if call.Pop? || call.TryPop? then
      if stored > 0 then Popped(history[|history| - stored], |history| - stored)
      else if Over(numProducer, ProducersGone(moves)) then Returns(NoMoreObject)
      else if call.Pop? then Waits
      else Returns(TryPopFailed)
    else if call.ProducerQuit? then
      if ProducersGone(moves) < numProducer then Returns(Succ) else Returns(UnexpectedProducerQuit)
    else
      if ConsumersGone(moves) < numConsumer then Returns(Succ) else Returns(UnexpectedConsumerQuit)
  }

  /** The fields of the buffer say what the history says. */
  ghost predicate Recorded<T>(b: Buffer<T>, moves: seq<Move<T>>, maxSize: nat, numProducer: nat, numConsumer: nat) {
    && b.maxSize == maxSize && b.numProducer == numProducer && b.numConsumer == numConsumer
    && (b.failed <==> Failed(moves))
    && ProducersGone(moves) <= numProducer && b.aliveProducers == numProducer - ProducersGone(moves)
    && (b.noAliveProducer <==> Over(numProducer, ProducersGone(moves)))
    && ConsumersGone(moves) <= numConsumer && b.aliveConsumers == numConsumer - ConsumersGone(moves)
    && (b.noAliveConsumer <==> Over(numConsumer, ConsumersGone(moves)))
    && |b.queue| == StoredNow(moves, numConsumer)
  }

  lemma LastMove<T>(moves: seq<Move<T>>, move: Move<T>, numConsumer: nat)
    ensures var all := moves + [move];
      && (Failed(all) <==> Failed(moves) || move.call.ForceFail?)
      && ProducersGone(all) == ProducersGone(moves)
                               + (if move.call.ProducerQuit? && move.outcome == Returns(Succ) then 1 else 0)
      && ConsumersGone(all) == ConsumersGone(moves)
                               + (if move.call.ConsumerQuit? && move.outcome == Returns(Succ) then 1 else 0)
      && StoredNow(all, numConsumer) ==
         if move.call.Clear? || move.call.ForceFail? then 0
         else if move.call.ConsumerQuit? && move.outcome == Returns(Succ)
             && Over(numConsumer, ConsumersGone(all)) then 0
         else StoredNow(moves, numConsumer) + (if move.outcome.Pushed? then 1 else if move.outcome.Popped? then -1
             else 0)
  {
    var all := moves + [move];
    assert all[..|all| - 1] == moves;
    assert all[|moves|] == move;
    if Failed(moves) {
      var i :| 0 <= i < |moves| && moves[i].call.ForceFail?;
      assert all[i].call.ForceFail?;
    }
  }

  lemma TurnRecorded<T>(b: Buffer<T>, moves: seq<Move<T>>, move: Move<T>, b': Buffer<T>, maxSize: nat,
      numProducer: nat, numConsumer: nat)
    requires Recorded(b, moves, maxSize, numProducer, numConsumer) && Turn(b, move.call, b', move.outcome)
    ensures Recorded(b', moves + [move], maxSize, numProducer, numConsumer)
  {
    LastMove(moves, move, numConsumer);
    hide Failed, ProducersGone, ConsumersGone, StoredNow;
  }

  lemma {:induction false} RunRecorded<T>(states: seq<Buffer<T>>, moves: seq<Move<T>>, maxSize: nat,
      numProducer: nat, numConsumer: nat, k: nat)
    requires IsRun(states, moves, maxSize, numProducer, numConsumer) && k <= |moves|
    ensures Recorded(states[k], moves[..k], maxSize, numProducer, numConsumer)
    decreases k
  {
    if k > 0 {
      RunRecorded(states, moves, maxSize, numProducer, numConsumer, k - 1);
      assert Turn(states[k - 1], moves[k - 1].call, states[k - 1 + 1], moves[k - 1].outcome);
      assert moves[..k] == moves[..k - 1] + [moves[k - 1]];
      hide Turn, Recorded;
      TurnRecorded(states[k - 1], moves[..k - 1], moves[k - 1], states[k], maxSize, numProducer, numConsumer);
    }
  }

  lemma TurnExpected<T>(b: Buffer<T>, moves: seq<Move<T>>, move: Move<T>, b': Buffer<T>, maxSize: nat,
      numProducer: nat, numConsumer: nat)
    requires Recorded(b, moves, maxSize, numProducer, numConsumer) && Holds(b, History(moves))
    requires Turn(b, move.call, b', move.outcome)
    ensures 0 <= StoredNow(moves, numConsumer) <= |History(moves)|
    ensures move.outcome == Expected(moves, move.call, maxSize, numProducer, numConsumer)
  {
    hide Failed, ProducersGone, ConsumersGone, StoredNow, History;
  }

  /**
   In every run each call returns what the history of calls says: whether it waits, fails, finds no consumer,
   finds no more objects, or which object it hands over, however threads have been notified and woken.
   */
  lemma OutcomeExpected<T>(states: seq<Buffer<T>>, moves: seq<Move<T>>, maxSize: nat, numProducer: nat,
      numConsumer: nat, k: nat)
    requires IsRun(states, moves, maxSize, numProducer, numConsumer) && k < |moves|
    ensures 0 <= StoredNow(moves[..k], numConsumer) <= |History(moves[..k])|
    ensures moves[k].outcome == Expected(moves[..k], moves[k].call, maxSize, numProducer, numConsumer)
  {
    RunRecorded(states, moves, maxSize, numProducer, numConsumer, k);
    RunHolds(states, moves, maxSize, numProducer, numConsumer, k);
    assert Turn(states[k], moves[k].call, states[k + 1], moves[k].outcome);
    hide Turn, Recorded, Holds, Expected, History, StoredNow;
    TurnExpected(states[k], moves[..k], moves[k], states[k + 1], maxSize, numProducer, numConsumer);
  }

  /** The threads whose push has returned to the wait and has not ended yet. */
  ghost function Pending<T>(moves: seq<Move<T>>): set<ThreadId> {
    if |moves| == 0 then {} else
      var before, last := Pending(moves[..|moves| - 1]), moves[|moves| - 1];
      match last.call
      case Push(tid, _) => if last.outcome.Waits? then before + {tid} else before - {tid}
      case _ => before
  }

  /** One turn changes who waits to push as it changes whose push is pending. */
  lemma TurnPending<T>(b: Buffer<T>, move: Move<T>, b': Buffer<T>)
    requires ProducersApart(b) && Turn(b, move.call, b', move.outcome)
    ensures ProducersApart(b')
    ensures var before, after := b.notFull.parked + b.notFull.notified, b'.notFull.parked + b'.notFull.notified;
      after == if !move.call.Push? then before
               else if move.outcome.Waits? then before + {move.call.tid} else before - {move.call.tid}
  {
  }

  ghost predicate ProducersApart<T>(b: Buffer<T>) {
    Apart(b.notFull)
  }

  /** In every run the threads that wait to push are those whose push is pending. */
  lemma {:induction false} WaitingIsPending<T>(states: seq<Buffer<T>>, moves: seq<Move<T>>, maxSize: nat,
      numProducer: nat, numConsumer: nat, k: nat)
    requires IsRun(states, moves, maxSize, numProducer, numConsumer) && k <= |moves|
    ensures ProducersApart(states[k])
    ensures states[k].notFull.parked + states[k].notFull.notified == Pending(moves[..k])
    decreases k
  {
    if k > 0 {
      WaitingIsPending(states, moves, maxSize, numProducer, numConsumer, k - 1);
      assert Turn(states[k - 1], moves[k - 1].call, states[k - 1 + 1], moves[k - 1].outcome);
      assert moves[..k][..k - 1] == moves[..k - 1];
      hide Turn;
      TurnPending(states[k - 1], moves[k - 1], states[k]);
    }
  }

  /** Clear is called only while no push is pending. */
  ghost predicate ClearsWhenIdle<T>(moves: seq<Move<T>>) {
    forall i :: 0 <= i < |moves| && moves[i].call.Clear? ==> Pending(moves[..i]) == {}
  }

  lemma ClearsBefore<T>(moves: seq<Move<T>>, k: nat)
    requires k < |moves| && ClearsWhenIdle(moves[..k + 1])
    ensures ClearsWhenIdle(moves[..k]) && (moves[k].call.Clear? ==> Pending(moves[..k]) == {})
  {
    forall i | 0 <= i < k + 1
      ensures moves[..k + 1][..i] == moves[..i] && moves[..k + 1][i] == moves[i]
    {
    }
    forall i | 0 <= i < k
      ensures moves[..k][..i] == moves[..i]
    {
    }
  }

  lemma ProducersStayAwakeIdle<T>(b: Buffer<T>, move: Move<T>, b': Buffer<T>)
    requires ProducersAwake(b) && Turn(b, move.call, b', move.outcome)
    requires move.call.Clear? ==> b.notFull.parked + b.notFull.notified == {}
    ensures ProducersAwake(b')
  {
    if move.call.Clear? {
      assert b.notFull.parked <= b.notFull.parked + b.notFull.notified;
      ClearAndProducers(b, b', move.outcome);
    } else {
      ProducersStayAwake(b, move.call, b', move.outcome);
    }
  }

  /**
   No wakeup of a consumer is lost in any run, nor of a producer when Clear is called only while no push is
   pending.
   */
  lemma {:induction false} NoLostWakeup<T>(states: seq<Buffer<T>>, moves: seq<Move<T>>, maxSize: nat,
      numProducer: nat, numConsumer: nat, k: nat)
    requires IsRun(states, moves, maxSize, numProducer, numConsumer) && k <= |moves|
    ensures ConsumersAwake(states[k])
    ensures ClearsWhenIdle(moves[..k]) ==> ProducersAwake(states[k])
    decreases k
  {
    if k > 0 {
      NoLostWakeup(states, moves, maxSize, numProducer, numConsumer, k - 1);
      WaitingIsPending(states, moves, maxSize, numProducer, numConsumer, k - 1);
      assert Turn(states[k - 1], moves[k - 1].call, states[k - 1 + 1], moves[k - 1].outcome);
      hide Turn, ConsumersAwake, ProducersAwake, ClearsWhenIdle, Pending;
      ConsumersStayAwake(states[k - 1], moves[k - 1].call, states[k], moves[k - 1].outcome);
      if ClearsWhenIdle(moves[..k]) {
        ClearsBefore(moves, k - 1);
        ProducersStayAwakeIdle(states[k - 1], moves[k - 1], states[k]);
      }
    }
  }

  // ----- What Clear does to a waiting producer -----

  /** A producer sleeps in front of an empty queue and no producer has been notified. */
  ghost predicate Stranded<T>(b: Buffer<T>, tid: ThreadId) {
    tid in b.notFull.parked && b.notFull.notified == {} && b.queue == [] && b.maxSize > 0 && !b.failed
        && !b.noAliveConsumer
  }

  /** With room for one object: one producer fills the queue, the next one waits, and Clear does not wake it. */
  lemma ClearStrands<T>(t: T, u: T) returns (states: seq<Buffer<T>>, moves: seq<Move<T>>)
    ensures moves == [Move(Push(0, t), Pushed(0)), Move(Push(1, u), Waits), Move(Clear, Returns(Succ))]
    ensures IsRun(states, moves, 1, 2, 1)
    ensures Stranded(states[3], 1) && !ProducersAwake(states[3])
  {
    var s0 := NewBuffer<T>(1, 2, 1);
    var s1 := s0.(objectId := 1, queue := [t]);
    var s2 := s1.(notFull := Condition({1}, {}));
    var s3 := s2.(queue := []);
    states := [s0, s1, s2, s3];
    moves := [Move(Push(0, t), Pushed(0)), Move(Push(1, u), Waits), Move(Clear, Returns(Succ))];
    assert Turn(s0, moves[0].call, s1, moves[0].outcome) by {
      assert s0.notFull.Without(0) == s0.notFull;
      assert [t] + [] == [t];
    }
    assert Turn(s1, moves[1].call, s2, moves[1].outcome) by {
      assert s1.notFull.Park(1) == Condition({1}, {});
    }
    assert Turn(s2, moves[2].call, s3, moves[2].outcome);
  }

  /** Nothing has been popped, no consumer has quit and the buffer has not been failed. */
  ghost predicate NothingTaken<T>(moves: seq<Move<T>>) {
    forall i :: 0 <= i < |moves| ==>
      !moves[i].outcome.Popped? && !moves[i].call.ConsumerQuit? && !moves[i].call.ForceFail?
  }

  lemma {:induction false} NobodyNotified<T>(states: seq<Buffer<T>>, moves: seq<Move<T>>, maxSize: nat,
      numProducer: nat, numConsumer: nat, k: nat)
    requires IsRun(states, moves, maxSize, numProducer, numConsumer) && k <= |moves| && NothingTaken(moves[..k])
    ensures states[k].notFull.notified == {} && !states[k].failed && !states[k].noAliveConsumer
    ensures states[k].maxSize == maxSize
    decreases k
  {
    if k > 0 {
      assert forall i :: 0 <= i < k - 1 ==> moves[..k - 1][i] == moves[..k][i];
      NobodyNotified(states, moves, maxSize, numProducer, numConsumer, k - 1);
      assert Turn(states[k - 1], moves[k - 1].call, states[k - 1 + 1], moves[k - 1].outcome);
      assert moves[..k][k - 1] == moves[k - 1];
    }
  }

  /**
   Before anything has been popped, Clear strands exactly the producers whose push is pending: those a
   caller has seen call push and not return.
   */
  lemma ClearStrandsWhen<T>(states: seq<Buffer<T>>, moves: seq<Move<T>>, maxSize: nat, numProducer: nat,
      numConsumer: nat, k: nat, tid: ThreadId)
    requires IsRun(states, moves, maxSize, numProducer, numConsumer) && maxSize > 0
    requires k < |moves| && moves[k].call.Clear? && NothingTaken(moves[..k])
    ensures Stranded(states[k + 1], tid) <==> tid in Pending(moves[..k])
  {
    WaitingIsPending(states, moves, maxSize, numProducer, numConsumer, k);
    NobodyNotified(states, moves, maxSize, numProducer, numConsumer, k);
    assert Turn(states[k], moves[k].call, states[k + 1], moves[k].outcome);
    assert states[k].notFull.parked == Pending(moves[..k]);
  }

  /** A push by the stranded thread itself is its waking up without being notified. */
  ghost predicate Rescues<T>(call: Call<T>) {
    call.Push? || call.TryPush? || call.ConsumerQuit? || call.ForceFail?
  }

  /**
   However often consumers ask, a stranded producer sleeps on and they get nothing, although the queue has
   room for it, unless it wakes up unnotified or another thread pushes, quits as a consumer or fails the buffer.
   */
  lemma {:induction false} StaysStranded<T>(states: seq<Buffer<T>>, moves: seq<Move<T>>, tid: ThreadId, k: nat)
    requires |states| == |moves| + 1 && Stranded(states[0], tid) && k <= |moves|
    requires forall i :: 0 <= i < |moves| ==>
        Turn(states[i], moves[i].call, states[i + 1], moves[i].outcome) && !Rescues(moves[i].call)
    ensures Stranded(states[k], tid)
    ensures forall i :: 0 <= i < k ==> !moves[i].outcome.Popped?
    decreases k
  {
    if k > 0 {
      StaysStranded(states, moves, tid, k - 1);
      assert Turn(states[k - 1], moves[k - 1].call, states[k - 1 + 1], moves[k - 1].outcome);
    }
  }
}

module ObjectBuffers {
  import opened BufferTurns

  class ObjectBuffer<T(==)> {
    const mMaxSize: nat
    const mNumProducer: nat
    const mNumConsumer: nat
    var mNumAliveProducer: nat
    var mNumAliveConsumer: nat
    var mObjectId: int
    var mQueue: seq<T>
    var mNotFull: Condition
    var mNotEmpty: Condition
    var mNoAliveProducer: bool
    var mNoAliveConsumer: bool
    var mFailed: bool

    ghost function State(): Buffer<T>
      reads this
    {
      Buffer(mMaxSize, mNumProducer, mNumConsumer, mNumAliveProducer, mNumAliveConsumer, mObjectId, mQueue,
             mNoAliveProducer, mNoAliveConsumer, mFailed, mNotFull, mNotEmpty)
    }

    constructor (maxSize: nat, numProducer: nat, numConsumer: nat)
      ensures State() == NewBuffer(maxSize, numProducer, numConsumer)
    {
      mMaxSize, mNumProducer, mNumConsumer := maxSize, numProducer, numConsumer;
      mNumAliveProducer, mNumAliveConsumer := numProducer, numConsumer;
      mObjectId, mQueue := 0, [];
      mNotFull, mNotEmpty := Condition({}, {}), Condition({}, {});
      mNoAliveProducer, mNoAliveConsumer, mFailed := false, false, false;
    }

    static method NotifyOne(c: Condition) returns (after: Condition)
      ensures c.NotifiedOne(after)
    {
      if c.parked == {} {
        after := c;
      } else {
        var p :| p in c.parked;
        after := Condition(c.parked - {p}, c.notified + {p});
      }
    }

    /** One turn of a blocking push, on entry or on waking up. */
    method Push(tid: ThreadId, t: T) returns (r: Outcome<T>)
      modifies this
      ensures PushTurn(old(State()), tid, t, State(), r)
    {
      if !mFailed && !mNoAliveConsumer && |mQueue| >= mMaxSize {
        mNotFull := mNotFull.Park(tid);
        return Waits;
      }
      mNotFull := mNotFull.Without(tid);
      if mFailed { return Returns(BufferFailed); }
      if mNoAliveConsumer { return Returns(NoAliveConsumer); }
      var id := mObjectId;
      mObjectId := mObjectId + 1;
      mQueue := [t] + mQueue;
      mNotEmpty := NotifyOne(mNotEmpty);
      r := Pushed(id);
    }

    method TryPush(t: T) returns (r: Outcome<T>)
      modifies this
      ensures TryPushTurn(old(State()), t, State(), r)
    {
      if mFailed { return Returns(BufferFailed); }
      if mNoAliveConsumer { return Returns(NoAliveConsumer); }
      if |mQueue| >= mMaxSize { return Returns(TryPushFailed); }
      var id := mObjectId;
      mObjectId := mObjectId + 1;
      mQueue := [t] + mQueue;
      mNotEmpty := NotifyOne(mNotEmpty);
      r := Pushed(id);
    }

    method ProducerQuit() returns (r: Outcome<T>)
      modifies this
      ensures ProducerQuitTurn(old(State()), State(), r)
    {
      if mFailed { return Returns(BufferFailed); }
      if mNumProducer == 0 { return Returns(UnexpectedProducerQuit); }
      if mNumAliveProducer == 0 { return Returns(UnexpectedProducerQuit); }
      mNumAliveProducer := mNumAliveProducer - 1;
      if mNumAliveProducer == 0 {
        mNoAliveProducer := true;
        mNotEmpty := mNotEmpty.NotifyAll();
      }
      r := Returns(Succ);
    }

    /** One turn of a blocking pop, on entry or on waking up. */
    method Pop(tid: ThreadId) returns (r: Outcome<T>)
      modifies this
      ensures PopTurn(old(State()), tid, State(), r)
    {
      if !mFailed && !mNoAliveProducer && |mQueue| == 0 {
        mNotEmpty := mNotEmpty.Park(tid);
        return Waits;
      }
      mNotEmpty := mNotEmpty.Without(tid);
      if mFailed { return Returns(BufferFailed); }
      if |mQueue| == 0 { return Returns(NoMoreObject); }
      r := Popped(mQueue[|mQueue| - 1], mObjectId - |mQueue|);
      mQueue := mQueue[..|mQueue| - 1];
      mNotFull := NotifyOne(mNotFull);
    }

    method TryPop() returns (r: Outcome<T>)
      modifies this
      ensures TryPopTurn(old(State()), State(), r)
    {
      if mFailed { return Returns(BufferFailed); }
      if |mQueue| == 0 { return Returns(if mNoAliveProducer then NoMoreObject else TryPopFailed); }
      r := Popped(mQueue[|mQueue| - 1], mObjectId - |mQueue|);
      mQueue := mQueue[..|mQueue| - 1];
      mNotFull := NotifyOne(mNotFull);
    }

    method ConsumerQuit() returns (r: Outcome<T>)
      modifies this
      ensures ConsumerQuitTurn(old(State()), State(), r)
    {
      if mFailed { return Returns(BufferFailed); }
      if mNumConsumer == 0 { return Returns(UnexpectedConsumerQuit); }
      if mNumAliveConsumer == 0 { return Returns(UnexpectedConsumerQuit); }
      mNumAliveConsumer := mNumAliveConsumer - 1;
      if mNumAliveConsumer == 0 {
        mNoAliveConsumer := true;
        mQueue := [];
        mNotFull := mNotFull.NotifyAll();
      }
      r := Returns(Succ);
    }

    method Clear() returns (r: Outcome<T>)
      modifies this
      ensures ClearTurn(old(State()), State(), r)
    {
      mQueue := [];
      r := Returns(Succ);
    }

    method ForceFail() returns (r: Outcome<T>)
      modifies this
      ensures ForceFailTurn(old(State()), State(), r)
    {
      mFailed := true;
      mQueue := [];
      mNotFull := mNotFull.NotifyAll();
      mNotEmpty := mNotEmpty.NotifyAll();
      r := Returns(Succ);
    }
  }
}
