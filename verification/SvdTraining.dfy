/**
 Parallel stochastic gradient descent on a grid of rating blocks, with iteration monitoring off. One
 producer dispatches blocks whose row and column are not blocked, workers apply the ratings of their
 block one by one, one consumer unblocks. A step is one read of a flag, one flag cleared, one move of a
 task through a buffer, or one rating applied. Only the choice of a block writes several cells at once:
 it holds the lock, which keeps the consumer's writes out, and the producer alone reads the flags.
 */
module SgdModel {

  datatype Node = Node(userId: nat, itemId: nat, rating: real)

  /** A user or item cell is its feature vector with its bias. */
  datatype Model<Cell> = Model(users: seq<Cell>, items: seq<Cell>)

  /** `sgd` is one rating's update; it reads and writes the cells of its user and its item only. */
  datatype Training<!Cell> = Training(
    numRow: nat, numCol: nat, iterations: int, numWorker: nat,
    rowBlockSize: nat, colBlockSize: nat, numUser: nat, numItem: nat,
    grids: seq<seq<Node>>, sgd: (Cell, Cell, Node) -> (Cell, Cell))
  {
    function RowOf(gridId: int): int
      requires numCol > 0
    {
      gridId / numCol
    }

    function ColOf(gridId: int): int
      requires numCol > 0
    {
      gridId % numCol
    }

    ghost predicate IsGrid(gridId: int) {
      0 <= gridId < |grids|
    }

    /** Every rating lies in the block of its user and its item. */
    ghost predicate Placed(gridId: int)
      requires numCol > 0 && rowBlockSize > 0 && colBlockSize > 0 && IsGrid(gridId)
    {
      forall i :: 0 <= i < |grids[gridId]| ==>
        var node := grids[gridId][i];
        && node.userId < numUser && node.itemId < numItem
        && node.userId / rowBlockSize == RowOf(gridId) && node.itemId / colBlockSize == ColOf(gridId)
    }

    ghost predicate Valid() {
      && numRow > 0 && numCol > 0 && rowBlockSize > 0 && colBlockSize > 0 && iterations > 0
      && |grids| == numRow * numCol
      && forall g :: IsGrid(g) ==> Placed(g)
    }

    ghost predicate Fits(m: Model<Cell>) {
      |m.users| == numUser && |m.items| == numItem
    }

    /** Neither the same row nor the same column of the grid. */
    ghost predicate Apart(g: int, h: int)
      requires numCol > 0
    {
      RowOf(g) != RowOf(h) && ColOf(g) != ColOf(h)
    }

    // ----- Updates -----

    ghost function Apply(m: Model<Cell>, node: Node): (r: Model<Cell>)
      requires Fits(m) && node.userId < numUser && node.itemId < numItem
      ensures Fits(r)
    {
      var (user, item) := sgd(m.users[node.userId], m.items[node.itemId], node);
      Model(m.users[node.userId := user], m.items[node.itemId := item])
    }

    ghost function ApplyFirst(m: Model<Cell>, gridId: int, n: nat): (r: Model<Cell>)
      requires Valid() && Fits(m) && IsGrid(gridId) && n <= |grids[gridId]|
      ensures Fits(r)
      decreases n
    {
      if n == 0 then m else
        assert Placed(gridId);
        Apply(ApplyFirst(m, gridId, n - 1), grids[gridId][n - 1])
    }

    ghost predicate Applicable(dispatched: seq<int>, applied: seq<nat>) {
      && |applied| == |dispatched|
      && forall k :: 0 <= k < |dispatched| ==> IsGrid(dispatched[k]) && applied[k] <= |grids[dispatched[k]]|
    }

    /** The dispatched blocks one after the other, of each only the ratings applied so far. */
    ghost function Serially(m: Model<Cell>, dispatched: seq<int>, applied: seq<nat>): (r: Model<Cell>)
      requires Valid() && Fits(m) && Applicable(dispatched, applied)
      ensures Fits(r)
      decreases |dispatched|
    {
      if |dispatched| == 0 then m else
        var k := |dispatched| - 1;
        ApplyFirst(Serially(m, dispatched[..k], applied[..k]), dispatched[k], applied[k])
    }

    /**
     Between m and m' one rating has been applied: its user and item have the new values, no other cell has
     changed.
     */
    ghost predicate Updated(m: Model<Cell>, node: Node, m': Model<Cell>) {
      && Fits(m) && Fits(m') && node.userId < numUser && node.itemId < numItem
      && (m'.users[node.userId], m'.items[node.itemId]) == sgd(m.users[node.userId], m.items[node.itemId], node)
      && (forall u :: 0 <= u < numUser && u != node.userId ==> m'.users[u] == m.users[u])
      && (forall i :: 0 <= i < numItem && i != node.itemId ==> m'.items[i] == m.items[i])
    }

    /** Running a block applies its ratings one after the other, from the first on. */
    lemma {:induction false} BlockTrace(m: Model<Cell>, gridId: int, n: nat) returns (models: seq<Model<Cell>>)
      requires Valid() && Fits(m) && IsGrid(gridId) && n <= |grids[gridId]|
      ensures |models| == n + 1 && models[0] == m && models[n] == ApplyFirst(m, gridId, n)
      ensures forall k :: 0 <= k < n ==> Updated(models[k], grids[gridId][k], models[k + 1])
      decreases n
    {
      if n == 0 {
        models := [m];
      } else {
        var before := BlockTrace(m, gridId, n - 1);
        models := before + [ApplyFirst(m, gridId, n)];
        assert Placed(gridId);
        assert Updated(models[n - 1], grids[gridId][n - 1], models[n]);
      }
    }

    /** Updates of different users and items commute. */
    lemma Commute(m: Model<Cell>, a: Node, b: Node)
      requires Fits(m) && a.userId < numUser && a.itemId < numItem && b.userId < numUser && b.itemId < numItem
      requires a.userId != b.userId && a.itemId != b.itemId
      ensures Apply(Apply(m, a), b) == Apply(Apply(m, b), a)
    {
      var ab, ba := Apply(Apply(m, a), b), Apply(Apply(m, b), a);
      assert ab.users == ba.users;
      assert ab.items == ba.items;
    }

    lemma {:induction false} CommuteBlock(m: Model<Cell>, g: int, n: nat, h: int, i: nat)
      requires Valid() && Fits(m) && IsGrid(g) && IsGrid(h) && n <= |grids[g]| && i < |grids[h]| && Apart(g, h)
      requires Placed(g) && Placed(h)
      ensures ApplyFirst(Apply(m, grids[h][i]), g, n) == Apply(ApplyFirst(m, g, n), grids[h][i])
      decreases n
    {
      if n > 0 {
        CommuteBlock(m, g, n - 1, h, i);
        assert Placed(g);
        Commute(ApplyFirst(m, g, n - 1), grids[g][n - 1], grids[h][i]);
      }
    }

    /**
     One more rating of block i, applied now, has the effect it would have had in its turn, when all
     blocks dispatched after i are apart from it.
     */
    lemma {:induction false} ApplyLate(m: Model<Cell>, dispatched: seq<int>, applied: seq<nat>, i: nat)
      requires Valid() && Fits(m) && Applicable(dispatched, applied)
      requires i < |dispatched| && applied[i] < |grids[dispatched[i]]| && Placed(dispatched[i])
      requires forall k :: i < k < |dispatched| ==> Apart(dispatched[k], dispatched[i])
      ensures Serially(m, dispatched, applied[i := applied[i] + 1]) ==
              Apply(Serially(m, dispatched, applied), grids[dispatched[i]][applied[i]])
      decreases |dispatched|
    {
      var k := |dispatched| - 1;
      var node := grids[dispatched[i]][applied[i]];
      if i == k {
        assert applied[i := applied[i] + 1][..k] == applied[..k];
      } else {
        assert applied[i := applied[i] + 1][..k] == applied[..k][i := applied[i] + 1];
        ApplyLate(m, dispatched[..k], applied[..k], i);
        assert Placed(dispatched[k]);
        CommuteBlock(Serially(m, dispatched[..k], applied[..k]), dispatched[k], applied[k], dispatched[i], applied[i]);
      }
    }
  }
}

module SgdSchedule {
  import opened Arithmetic
  import opened SgdModel

  /**
   Where a dispatched block is: with the producer, in the first buffer, with a worker, in the second
   buffer, with the consumer, with its row unblocked and the lock still held, or unblocked altogether.
   */
  datatype Stage = Held | Queued | Working(worker: nat) | Finished | Consuming | Releasing | Retired

  /** The smallest count seen so far in a scan. */
  datatype Least = None | Some(value: int)

  /** The producer reads one row flag or one column flag at a time, without the lock. */
  datatype Pc = AtRow(i: nat) | AtCol(i: nat, j: nat) | Putting | Checking | Done

  datatype State<Cell> = State(
    rowBlocked: seq<bool>, colBlocked: seq<bool>, count: seq<int>,
    pc: Pc, candidates: seq<int>, least: Least,
    dispatched: seq<int>, stage: seq<Stage>, applied: seq<nat>, model: Model<Cell>)

  ghost predicate Starts<Cell>(t: Training<Cell>, s: State<Cell>) {
    && t.Valid() && t.Fits(s.model)
    && s.rowBlocked == seq(t.numRow, _ => false) && s.colBlocked == seq(t.numCol, _ => false)
    && s.count == seq(|t.grids|, _ => 0)
    && s.pc == AtRow(0) && s.candidates == [] && s.least == None
    && s.dispatched == [] && s.stage == [] && s.applied == []
  }

  // ----- Steps -----

  ghost predicate ReadRow<Cell>(t: Training<Cell>, s: State<Cell>, s': State<Cell>) {
    && s.pc.AtRow? && s.pc.i < t.numRow && |s.rowBlocked| == t.numRow
    && s' == s.(pc := if s.rowBlocked[s.pc.i] then AtRow(s.pc.i + 1) else AtCol(s.pc.i, 0))
  }

  /** A free cell of the grid joins the candidates, replaces them, or is passed over. */
  ghost predicate ReadCol<Cell>(t: Training<Cell>, s: State<Cell>, s': State<Cell>) {
    && s.pc.AtCol? && s.pc.j < t.numCol && |s.colBlocked| == t.numCol
    && var gridId := s.pc.i * t.numCol + s.pc.j;
       var n := s.(pc := AtCol(s.pc.i, s.pc.j + 1));
    && 0 <= gridId < |s.count|
    && s' == if s.colBlocked[s.pc.j] || s.count[gridId] >= t.iterations - 1 then n
             else if s.least == Some(s.count[gridId]) then n.(candidates := s.candidates + [gridId])
             else if s.least == None || s.count[gridId] < s.least.value then
               n.(least := Some(s.count[gridId]), candidates := [gridId])
             else n
  }

  ghost predicate EndOfRow<Cell>(t: Training<Cell>, s: State<Cell>, s': State<Cell>) {
    && s.pc.AtCol? && s.pc.j >= t.numCol
    && s' == s.(pc := AtRow(s.pc.i + 1))
  }

  /** Any candidate may be chosen once the lock is free; both its flags are set, then its count goes up. */
  ghost predicate Choose<Cell>(t: Training<Cell>, gridId: int, s: State<Cell>, s': State<Cell>) {
    && s.pc.AtRow? && s.pc.i >= t.numRow && gridId in s.candidates && t.numCol > 0 && Releasing !in s.stage
    && 0 <= gridId < |s.count| && 0 <= t.RowOf(gridId) < |s.rowBlocked| && 0 <= t.ColOf(gridId) < |s.colBlocked|
    && s' == s.(rowBlocked := s.rowBlocked[t.RowOf(gridId) := true],
                colBlocked := s.colBlocked[t.ColOf(gridId) := true],
                count := s.count[gridId := s.count[gridId] + 1],
                dispatched := s.dispatched + [gridId], stage := s.stage + [Held], applied := s.applied + [0],
                pc := Putting, candidates := [], least := None)
  }

  ghost predicate NoCandidate<Cell>(t: Training<Cell>, s: State<Cell>, s': State<Cell>) {
    && s.pc.AtRow? && s.pc.i >= t.numRow && s.candidates == []
    && s' == s.(pc := Checking, least := None)
  }

  /** Both buffers of the scheduler hold at most one task. */
  ghost predicate Put<Cell>(k: nat, s: State<Cell>, s': State<Cell>) {
    && s.pc == Putting && k < |s.stage| && s.stage[k] == Held && Queued !in s.stage
    && s' == s.(pc := Checking, stage := s.stage[k := Queued])
  }

  /** The producer stops when every block has been dispatched often enough, and scans again otherwise. */
  ghost predicate Check<Cell>(t: Training<Cell>, s: State<Cell>, s': State<Cell>) {
    && s.pc == Checking
    && s' == s.(pc := if forall g :: 0 <= g < |s.count| ==> s.count[g] >= t.iterations - 1 then Done else AtRow(0))
  }

  ghost predicate Take<Cell>(t: Training<Cell>, w: nat, k: nat, s: State<Cell>, s': State<Cell>) {
    && w < t.numWorker && Working(w) !in s.stage && k < |s.stage| && s.stage[k] == Queued
    && s' == s.(stage := s.stage[k := Working(w)])
  }

  /** A worker applies the next rating of its block to the shared model. */
  ghost predicate ApplyNext<Cell>(t: Training<Cell>, k: nat, s: State<Cell>, s': State<Cell>) {
    && t.Valid() && t.Fits(s.model)
    && k < |s.stage| && s.stage[k].Working? && k < |s.dispatched| && t.IsGrid(s.dispatched[k])
    && k < |s.applied| && s.applied[k] < |t.grids[s.dispatched[k]]| && t.Placed(s.dispatched[k])
    && s' == s.(applied := s.applied[k := s.applied[k] + 1],
                model := t.Apply(s.model, t.grids[s.dispatched[k]][s.applied[k]]))
  }

  ghost predicate Finish<Cell>(t: Training<Cell>, k: nat, s: State<Cell>, s': State<Cell>) {
    && k < |s.stage| && s.stage[k].Working? && Stage.Finished !in s.stage
    && k < |s.dispatched| && t.IsGrid(s.dispatched[k]) && k < |s.applied| && s.applied[k] == |t.grids[s.dispatched[k]]|
    && s' == s.(stage := s.stage[k := Stage.Finished])
  }

  ghost predicate Consume<Cell>(k: nat, s: State<Cell>, s': State<Cell>) {
    && k < |s.stage| && s.stage[k] == Stage.Finished && Consuming !in s.stage && Releasing !in s.stage
    && s' == s.(stage := s.stage[k := Consuming])
  }

  /** The consumer takes the lock and clears the row flag of its block; a scan may now see the row free. */
  ghost predicate ReleaseRow<Cell>(t: Training<Cell>, k: nat, s: State<Cell>, s': State<Cell>) {
    && k < |s.stage| && s.stage[k] == Consuming && k < |s.dispatched| && t.numCol > 0
    && 0 <= t.RowOf(s.dispatched[k]) < |s.rowBlocked|
    && s' == s.(stage := s.stage[k := Releasing], rowBlocked := s.rowBlocked[t.RowOf(s.dispatched[k]) := false])
  }

  /** It clears the column flag and lets the lock go. */
  ghost predicate ReleaseCol<Cell>(t: Training<Cell>, k: nat, s: State<Cell>, s': State<Cell>) {
    && k < |s.stage| && s.stage[k] == Releasing && k < |s.dispatched| && t.numCol > 0
    && 0 <= t.ColOf(s.dispatched[k]) < |s.colBlocked|
    && s' == s.(stage := s.stage[k := Retired], colBlocked := s.colBlocked[t.ColOf(s.dispatched[k]) := false])
  }

  ghost predicate StepOf<Cell>(t: Training<Cell>, s: State<Cell>, w: nat, k: nat, s': State<Cell>) {
    || ReadRow(t, s, s') || ReadCol(t, s, s') || EndOfRow(t, s, s') || Choose(t, k, s, s') || NoCandidate(t, s, s')
    || Put(k, s, s') || Check(t, s, s') || Take(t, w, k, s, s') || ApplyNext(t, k, s, s') || Finish(t, k, s, s')
    || Consume(k, s, s') || ReleaseRow(t, k, s, s') || ReleaseCol(t, k, s, s')
  }

  ghost predicate Next<Cell(!new)>(t: Training<Cell>, s: State<Cell>, s': State<Cell>) {
    exists w, k :: StepOf(t, s, w, k, s')
  }

  // ----- What every step keeps -----

  ghost predicate InFlight<Cell>(s: State<Cell>, k: int) {
    0 <= k < |s.stage| && s.stage[k] != Retired
  }

  ghost predicate Shaped<Cell>(t: Training<Cell>, s: State<Cell>) {
    && t.Valid() && t.Fits(s.model)
    && |s.rowBlocked| == t.numRow && |s.colBlocked| == t.numCol && |s.count| == |t.grids|
    && |s.stage| == |s.dispatched| && t.Applicable(s.dispatched, s.applied)
  }

  /** Row and column of gridId are within the grid. */
  lemma GridPosition<Cell>(t: Training<Cell>, gridId: int)
    requires t.Valid() && t.IsGrid(gridId)
    ensures 0 <= t.RowOf(gridId) < t.numRow && 0 <= t.ColOf(gridId) < t.numCol
  {
    Divide(gridId, t.numCol);
    RowInRange(gridId, t.numRow, t.numCol);
  }

  lemma CellPosition<Cell>(t: Training<Cell>, i: nat, j: nat)
    requires t.Valid() && i < t.numRow && j < t.numCol
    ensures var g := i * t.numCol + j; t.IsGrid(g) && t.RowOf(g) == i && t.ColOf(g) == j
  {
    QuotientUnique(t.numCol, i, j);
    RowStep(t.numCol, i, t.numRow);
  }

  /** The flags of every block in flight are set, but for the row of one that is being released. */
  ghost predicate Blocking<Cell>(t: Training<Cell>, s: State<Cell>)
    requires Shaped(t, s)
  {
    && (forall k :: InFlight(s, k) && s.stage[k] != Releasing ==> BothBlocked(t, s, s.dispatched[k]))
    && (forall k :: InFlight(s, k) ==> ColumnBlocked(t, s, s.dispatched[k]))
  }

  ghost predicate ColumnBlocked<Cell>(t: Training<Cell>, s: State<Cell>, g: int)
    requires Shaped(t, s)
  {
    t.IsGrid(g) && 0 <= t.ColOf(g) < t.numCol && s.colBlocked[t.ColOf(g)]
  }

  ghost predicate BothBlocked<Cell>(t: Training<Cell>, s: State<Cell>, g: int)
    requires Shaped(t, s)
  {
    && t.IsGrid(g) && 0 <= t.RowOf(g) < t.numRow && 0 <= t.ColOf(g) < t.numCol
    && s.rowBlocked[t.RowOf(g)] && s.colBlocked[t.ColOf(g)]
  }

  ghost predicate BothFree<Cell>(t: Training<Cell>, s: State<Cell>, g: int)
    requires Shaped(t, s)
  {
    && t.IsGrid(g) && 0 <= t.RowOf(g) < t.numRow && 0 <= t.ColOf(g) < t.numCol
    && !s.rowBlocked[t.RowOf(g)] && !s.colBlocked[t.ColOf(g)]
  }

  /** Whatever was dispatched while a block is in flight shares no row and no column with it. */
  ghost predicate ApartSince<Cell>(t: Training<Cell>, s: State<Cell>)
    requires Shaped(t, s)
  {
    forall i, j :: 0 <= i < j < |s.dispatched| && InFlight(s, i) ==> t.Apart(s.dispatched[j], s.dispatched[i])
  }

  /** A flag the producer has seen clear stays clear until the producer sets it. */
  ghost predicate ScanSound<Cell>(t: Training<Cell>, s: State<Cell>)
    requires Shaped(t, s)
  {
    && (forall n :: 0 <= n < |s.candidates| ==>
          BothFree(t, s, s.candidates[n]) && s.count[s.candidates[n]] < t.iterations - 1)
    && (s.pc.AtCol? ==> s.pc.i < t.numRow && s.pc.j <= t.numCol && !s.rowBlocked[s.pc.i])
  }

  ghost predicate Safe<Cell>(t: Training<Cell>, s: State<Cell>) {
    Shaped(t, s) && Blocking(t, s) && ApartSince(t, s) && ScanSound(t, s)
  }

  ghost predicate Counts<Cell>(t: Training<Cell>, s: State<Cell>) {
    && |s.count| == |t.grids|
    && (forall g :: 0 <= g < |s.count| ==> s.count[g] == multiset(s.dispatched)[g] <= t.iterations - 1)
    && (s.pc == Done ==> forall g :: 0 <= g < |s.count| ==> s.count[g] >= t.iterations - 1)
  }

  /** All ratings of the block have been applied. */
  predicate Past(stage: Stage) {
    stage.Finished? || stage.Consuming? || stage.Releasing? || stage.Retired?
  }

  ghost predicate Complete<Cell>(t: Training<Cell>, s: State<Cell>)
    requires Shaped(t, s)
  {
    forall k :: 0 <= k < |s.stage| && Past(s.stage[k]) ==> s.applied[k] == |t.grids[s.dispatched[k]]|
  }

  lemma SafeReads<Cell>(t: Training<Cell>, s: State<Cell>, s': State<Cell>)
    requires Safe(t, s) && (ReadRow(t, s, s') || EndOfRow(t, s, s') || NoCandidate(t, s, s') || Check(t, s, s'))
    ensures Safe(t, s')
  {
    assert forall g :: BothFree(t, s, g) ==> BothFree(t, s', g);
    assert forall g :: BothBlocked(t, s, g) ==> BothBlocked(t, s', g);
    assert forall g :: ColumnBlocked(t, s, g) ==> ColumnBlocked(t, s', g);
    assert forall k :: InFlight(s', k) ==> InFlight(s, k);
  }

  lemma SafeReadCol<Cell>(t: Training<Cell>, s: State<Cell>, s': State<Cell>)
    requires Safe(t, s) && ReadCol(t, s, s')
    ensures Safe(t, s')
  {
    CellPosition(t, s.pc.i, s.pc.j);
    var gridId := s.pc.i * t.numCol + s.pc.j;
    assert !s.colBlocked[s.pc.j] ==> BothFree(t, s', gridId);
    assert forall g :: BothFree(t, s, g) ==> BothFree(t, s', g);
    assert forall g :: BothBlocked(t, s, g) ==> BothBlocked(t, s', g);
    assert forall g :: ColumnBlocked(t, s, g) ==> ColumnBlocked(t, s', g);
    assert forall k :: InFlight(s', k) ==> InFlight(s, k);
  }

  lemma SafeChoose<Cell>(t: Training<Cell>, g: int, s: State<Cell>, s': State<Cell>)
    requires Safe(t, s) && Choose(t, g, s, s')
    ensures Safe(t, s')
  {
    assert BothFree(t, s, g);
    BlockingChoose(t, g, s, s');
    forall i, j | 0 <= i < j < |s'.dispatched| && InFlight(s', i)
      ensures t.Apart(s'.dispatched[j], s'.dispatched[i])
    {
      assert InFlight(s, i) && s.stage[i] in s.stage;
      assert BothBlocked(t, s, s.dispatched[i]);
    }
  }

  lemma BlockingChoose<Cell>(t: Training<Cell>, g: int, s: State<Cell>, s': State<Cell>)
    requires Shaped(t, s) && Blocking(t, s) && Choose(t, g, s, s') && Shaped(t, s') && BothFree(t, s, g)
    ensures Blocking(t, s')
  {
    assert forall h :: BothBlocked(t, s, h) ==> BothBlocked(t, s', h);
    assert forall h :: ColumnBlocked(t, s, h) ==> ColumnBlocked(t, s', h);
    assert BothBlocked(t, s', g) && ColumnBlocked(t, s', g);
    forall k | InFlight(s', k)
      ensures BothBlocked(t, s', s'.dispatched[k]) && ColumnBlocked(t, s', s'.dispatched[k])
    {
      if k < |s.stage| {
        assert InFlight(s, k) && s.stage[k] in s.stage;
      }
    }
  }

  /** A step that only moves a block on, without clearing flags. */
  lemma SafeMoves<Cell>(t: Training<Cell>, s: State<Cell>, s': State<Cell>)
    requires Safe(t, s) && Shaped(t, s')
    requires s'.rowBlocked == s.rowBlocked && s'.colBlocked == s.colBlocked && s'.count == s.count
    requires s'.dispatched == s.dispatched && s'.candidates == s.candidates && (s'.pc == s.pc || !s'.pc.AtCol?)
    requires forall k :: InFlight(s', k) ==> InFlight(s, k) && (s.stage[k] == Releasing ==> s'.stage[k] == Releasing)
    ensures Safe(t, s')
  {
    assert forall g :: BothFree(t, s, g) ==> BothFree(t, s', g);
    assert forall g :: BothBlocked(t, s, g) ==> BothBlocked(t, s', g);
    assert forall g :: ColumnBlocked(t, s, g) ==> ColumnBlocked(t, s', g);
  }

  /** Two blocks in flight are apart, whichever was dispatched first. */
  lemma FlightApart<Cell>(t: Training<Cell>, s: State<Cell>, i: nat, j: nat)
    requires Safe(t, s) && i != j && InFlight(s, i) && InFlight(s, j)
    ensures t.Apart(s.dispatched[i], s.dispatched[j])
  {
    assert t.Apart(s.dispatched[if i < j then j else i], s.dispatched[if i < j then i else j]);
  }

  lemma SafeReleaseRow<Cell>(t: Training<Cell>, k: nat, s: State<Cell>, s': State<Cell>)
    requires Safe(t, s) && ReleaseRow(t, k, s, s')
    ensures Safe(t, s')
  {
    assert InFlight(s, k);
    assert forall g :: BothFree(t, s, g) ==> BothFree(t, s', g);
    assert forall g :: ColumnBlocked(t, s, g) ==> ColumnBlocked(t, s', g);
    forall j | InFlight(s', j)
      ensures s'.stage[j] != Releasing ==> BothBlocked(t, s', s'.dispatched[j])
      ensures ColumnBlocked(t, s', s'.dispatched[j]) && InFlight(s, j)
    {
      assert InFlight(s, j) && ColumnBlocked(t, s, s.dispatched[j]);
      if j != k {
        FlightApart(t, s, j, k);
      }
    }
  }

  lemma SafeReleaseCol<Cell>(t: Training<Cell>, k: nat, s: State<Cell>, s': State<Cell>)
    requires Safe(t, s) && ReleaseCol(t, k, s, s')
    ensures Safe(t, s')
  {
    assert InFlight(s, k);
    assert forall g :: BothFree(t, s, g) ==> BothFree(t, s', g);
    forall j | InFlight(s', j)
      ensures s'.stage[j] != Releasing ==> BothBlocked(t, s', s'.dispatched[j])
      ensures ColumnBlocked(t, s', s'.dispatched[j]) && InFlight(s, j)
    {
      assert InFlight(s, j) && ColumnBlocked(t, s, s.dispatched[j]);
      FlightApart(t, s, j, k);
    }
  }

  lemma StepSafe<Cell>(t: Training<Cell>, s: State<Cell>, w: nat, k: nat, s': State<Cell>)
    requires Safe(t, s) && StepOf(t, s, w, k, s')
    ensures Safe(t, s')
  {
    if ReadRow(t, s, s') || EndOfRow(t, s, s') || NoCandidate(t, s, s') || Check(t, s, s') {
      SafeReads(t, s, s');
    } else if ReadCol(t, s, s') {
      SafeReadCol(t, s, s');
    } else if Choose(t, k, s, s') {
      SafeChoose(t, k, s, s');
    } else if ReleaseRow(t, k, s, s') {
      SafeReleaseRow(t, k, s, s');
    } else if ReleaseCol(t, k, s, s') {
      SafeReleaseCol(t, k, s, s');
    } else {
      SafeMoves(t, s, s');
    }
  }

  lemma CountsChoose<Cell>(t: Training<Cell>, g: int, s: State<Cell>, s': State<Cell>)
    requires Safe(t, s) && Counts(t, s) && Choose(t, g, s, s')
    ensures Counts(t, s')
  {
    assert BothFree(t, s, g);
    assert multiset(s'.dispatched) == multiset(s.dispatched) + multiset{g};
  }

  lemma CountsMoves<Cell>(t: Training<Cell>, s: State<Cell>, s': State<Cell>)
    requires Counts(t, s) && s'.count == s.count && s'.dispatched == s.dispatched
    requires s'.pc == s.pc || s'.pc != Done || Check(t, s, s')
    ensures Counts(t, s')
  {
  }

  lemma StepCounts<Cell>(t: Training<Cell>, s: State<Cell>, w: nat, k: nat, s': State<Cell>)
    requires Safe(t, s) && Counts(t, s) && StepOf(t, s, w, k, s')
    ensures Counts(t, s')
  {
    if Choose(t, k, s, s') {
      CountsChoose(t, k, s, s');
    } else {
      CountsMoves(t, s, s');
    }
  }

  lemma CompleteMoves<Cell>(t: Training<Cell>, s: State<Cell>, s': State<Cell>)
    requires Shaped(t, s) && Shaped(t, s') && Complete(t, s) && |s'.stage| == |s.stage|
    requires s'.dispatched == s.dispatched && s'.applied == s.applied
    requires forall k :: 0 <= k < |s.stage| && Past(s'.stage[k]) ==> Past(s.stage[k])
    ensures Complete(t, s')
  {
  }

  lemma StepComplete<Cell>(t: Training<Cell>, s: State<Cell>, w: nat, k: nat, s': State<Cell>)
    requires Shaped(t, s) && Complete(t, s) && StepOf(t, s, w, k, s') && Shaped(t, s')
    ensures Complete(t, s')
  {
    hide Complete;
    if Choose(t, k, s, s') || ApplyNext(t, k, s, s') || Finish(t, k, s, s') {
      CompleteWork(t, s, k, s');
    } else {
      CompleteMoves(t, s, s');
    }
  }

  lemma CompleteWork<Cell>(t: Training<Cell>, s: State<Cell>, k: nat, s': State<Cell>)
    requires Shaped(t, s) && Complete(t, s) && Shaped(t, s')
    requires Choose(t, k, s, s') || ApplyNext(t, k, s, s') || Finish(t, k, s, s')
    ensures Complete(t, s')
  {
  }

  /** The shared model is what the dispatched blocks make of the first model one after the other. */
  ghost predicate Serial<Cell>(t: Training<Cell>, m: Model<Cell>, s: State<Cell>)
    requires Shaped(t, s)
  {
    t.Fits(m) && s.model == t.Serially(m, s.dispatched, s.applied)
  }

  lemma ApplySerial<Cell>(t: Training<Cell>, m: Model<Cell>, s: State<Cell>, k: nat, s': State<Cell>)
    requires Safe(t, s) && Serial(t, m, s) && ApplyNext(t, k, s, s') && Shaped(t, s')
    ensures Serial(t, m, s')
  {
    assert InFlight(s, k);
    t.ApplyLate(m, s.dispatched, s.applied, k);
  }

  lemma ChooseSerial<Cell>(t: Training<Cell>, m: Model<Cell>, s: State<Cell>, k: nat, s': State<Cell>)
    requires Safe(t, s) && Serial(t, m, s) && Choose(t, k, s, s') && Shaped(t, s')
    ensures Serial(t, m, s')
  {
    assert s'.dispatched[..|s.dispatched|] == s.dispatched;
    assert s'.applied[..|s.applied|] == s.applied;
  }

  lemma StepSerial<Cell>(t: Training<Cell>, m: Model<Cell>, s: State<Cell>, w: nat, k: nat, s': State<Cell>)
    requires Safe(t, s) && Serial(t, m, s) && StepOf(t, s, w, k, s') && Shaped(t, s')
    ensures Serial(t, m, s')
  {
    if ApplyNext(t, k, s, s') {
      ApplySerial(t, m, s, k, s');
    } else if Choose(t, k, s, s') {
      ChooseSerial(t, m, s, k, s');
    }
  }

  // ----- Progress -----

  ghost predicate RowOwned<Cell>(t: Training<Cell>, s: State<Cell>, r: int)
    requires Shaped(t, s)
  {
    exists k :: InFlight(s, k) && s.stage[k] != Releasing && t.RowOf(s.dispatched[k]) == r
  }

  ghost predicate ColOwned<Cell>(t: Training<Cell>, s: State<Cell>, c: int)
    requires Shaped(t, s)
  {
    exists k :: InFlight(s, k) && t.ColOf(s.dispatched[k]) == c
  }

  /** Every set flag belongs to a block in flight. */
  ghost predicate Owned<Cell>(t: Training<Cell>, s: State<Cell>)
    requires Shaped(t, s)
  {
    && (forall r :: 0 <= r < t.numRow && s.rowBlocked[r] ==> RowOwned(t, s, r))
    && (forall c :: 0 <= c < t.numCol && s.colBlocked[c] ==> ColOwned(t, s, c))
  }

  /** The producer holds a block exactly while it puts it, and has no candidates before a scan. */
  ghost predicate InHand<Cell>(s: State<Cell>) {
    && (s.pc == Putting <==> Held in s.stage)
    && (s.pc == AtRow(0) || !(s.pc.AtRow? || s.pc.AtCol?) ==> s.candidates == [] && s.least == None)
    && (forall i, j :: 0 <= i < j < |s.stage| ==> s.stage[i] != Held || s.stage[j] != Held)
  }

  ghost predicate Tidy<Cell>(t: Training<Cell>, s: State<Cell>)
    requires Shaped(t, s)
  {
    Owned(t, s) && InHand(s)
  }

  /** A step that keeps the row and column flags and every block in flight keeps the owners. */
  lemma OwnersKept<Cell>(t: Training<Cell>, s: State<Cell>, s': State<Cell>, k: int)
    requires Shaped(t, s) && Shaped(t, s') && Owned(t, s) && |s.stage| <= |s'.stage|
    requires s'.rowBlocked == s.rowBlocked && s'.colBlocked == s.colBlocked && s'.dispatched == s.dispatched
    requires forall j :: 0 <= j < |s.stage| && j != k ==> s'.stage[j] == s.stage[j]
    requires 0 <= k < |s.stage| ==> s'.stage[k] != Retired && s'.stage[k] != Releasing
    ensures Owned(t, s')
  {
    forall r | 0 <= r < t.numRow && s'.rowBlocked[r]
      ensures RowOwned(t, s', r)
    {
      var j :| InFlight(s, j) && s.stage[j] != Releasing && t.RowOf(s.dispatched[j]) == r;
      assert InFlight(s', j);
    }
    forall c | 0 <= c < t.numCol && s'.colBlocked[c]
      ensures ColOwned(t, s', c)
    {
      var j :| InFlight(s, j) && t.ColOf(s.dispatched[j]) == c;
      assert InFlight(s', j);
    }
  }

  lemma OwnedChoose<Cell>(t: Training<Cell>, g: int, s: State<Cell>, s': State<Cell>)
    requires Shaped(t, s) && Shaped(t, s') && Owned(t, s) && Choose(t, g, s, s')
    ensures Owned(t, s')
  {
    var n := |s.stage|;
    assert InFlight(s', n) && s'.stage[n] == Held;
    assert forall k :: InFlight(s, k) ==> InFlight(s', k) && s'.dispatched[k] == s.dispatched[k];
    forall r | 0 <= r < t.numRow && s'.rowBlocked[r]
      ensures RowOwned(t, s', r)
    {
      if r != t.RowOf(g) {
        var j :| InFlight(s, j) && s.stage[j] != Releasing && t.RowOf(s.dispatched[j]) == r;
        assert InFlight(s', j);
      }
    }
    forall c | 0 <= c < t.numCol && s'.colBlocked[c]
      ensures ColOwned(t, s', c)
    {
      if c != t.ColOf(g) {
        var j :| InFlight(s, j) && t.ColOf(s.dispatched[j]) == c;
        assert InFlight(s', j);
      }
    }
  }

  lemma OwnedReleaseRow<Cell>(t: Training<Cell>, k: nat, s: State<Cell>, s': State<Cell>)
    requires Shaped(t, s) && Shaped(t, s') && Owned(t, s) && ReleaseRow(t, k, s, s')
    ensures Owned(t, s')
  {
    forall r | 0 <= r < t.numRow && s'.rowBlocked[r]
      ensures RowOwned(t, s', r)
    {
      var j :| InFlight(s, j) && s.stage[j] != Releasing && t.RowOf(s.dispatched[j]) == r;
      assert InFlight(s', j);
    }
    forall c | 0 <= c < t.numCol && s'.colBlocked[c]
      ensures ColOwned(t, s', c)
    {
      var j :| InFlight(s, j) && t.ColOf(s.dispatched[j]) == c;
      assert InFlight(s', j);
    }
  }

  lemma OwnedReleaseCol<Cell>(t: Training<Cell>, k: nat, s: State<Cell>, s': State<Cell>)
    requires Shaped(t, s) && Shaped(t, s') && Owned(t, s) && ReleaseCol(t, k, s, s')
    ensures Owned(t, s')
  {
    forall r | 0 <= r < t.numRow && s'.rowBlocked[r]
      ensures RowOwned(t, s', r)
    {
      var j :| InFlight(s, j) && s.stage[j] != Releasing && t.RowOf(s.dispatched[j]) == r;
      assert InFlight(s', j);
    }
    forall c | 0 <= c < t.numCol && s'.colBlocked[c]
      ensures ColOwned(t, s', c)
    {
      var j :| InFlight(s, j) && t.ColOf(s.dispatched[j]) == c;
      assert InFlight(s', j);
    }
  }

  lemma StepOwned<Cell>(t: Training<Cell>, s: State<Cell>, w: nat, k: nat, s': State<Cell>)
    requires Shaped(t, s) && Shaped(t, s') && Owned(t, s) && StepOf(t, s, w, k, s')
    ensures Owned(t, s')
  {
    if Choose(t, k, s, s') {
      OwnedChoose(t, k, s, s');
    } else if ReleaseRow(t, k, s, s') {
      OwnedReleaseRow(t, k, s, s');
    } else if ReleaseCol(t, k, s, s') {
      OwnedReleaseCol(t, k, s, s');
    } else if s'.stage == s.stage {
      OwnersKept(t, s, s', -1);
    } else {
      OwnersKept(t, s, s', k);
    }
  }

  lemma InHandChoose<Cell>(t: Training<Cell>, g: int, s: State<Cell>, s': State<Cell>)
    requires InHand(s) && Choose(t, g, s, s')
    ensures InHand(s')
  {
    assert forall i :: 0 <= i < |s.stage| ==> s.stage[i] in s.stage;
    assert s'.stage[|s.stage|] == Held;
  }

  lemma InHandMoves<Cell>(s: State<Cell>, s': State<Cell>, k: nat, x: Stage)
    requires InHand(s) && k < |s.stage| && x != Held && s'.stage == s.stage[k := x]
    requires s'.candidates == s.candidates && s'.least == s.least
    requires if s.stage[k] == Held then s'.pc == Checking else s'.pc == s.pc
    ensures InHand(s')
  {
    assert s.stage[k] in s.stage;
    forall i | 0 <= i < |s.stage| && s.stage[i] == Held && i != k
      ensures s'.stage[i] == Held && s'.stage[i] in s'.stage
    {
    }
  }

  lemma StepInHand<Cell>(t: Training<Cell>, s: State<Cell>, w: nat, k: nat, s': State<Cell>)
    requires InHand(s) && StepOf(t, s, w, k, s')
    ensures InHand(s')
  {
    if Choose(t, k, s, s') {
      InHandChoose(t, k, s, s');
    } else if s'.stage != s.stage {
      InHandMoves(s, s', k, s'.stage[k]);
    }
  }

  /** A step that moves a block in flight on. */
  ghost predicate BlockMoves<Cell>(t: Training<Cell>, s: State<Cell>, w: nat, k: nat, s': State<Cell>) {
    || Put(k, s, s') || Take(t, w, k, s, s') || ApplyNext(t, k, s, s') || Finish(t, k, s, s')
    || Consume(k, s, s') || ReleaseRow(t, k, s, s') || ReleaseCol(t, k, s, s')
  }

  lemma WorkingMoves<Cell>(t: Training<Cell>, s: State<Cell>, k: nat)
    requires Safe(t, s) && k < |s.stage| && s.stage[k].Working? && Stage.Finished !in s.stage
    ensures exists s' :: ApplyNext(t, k, s, s') || Finish(t, k, s, s')
  {
    var g := s.dispatched[k];
    if s.applied[k] < |t.grids[g]| {
      assert t.Placed(g);
      var s' := s.(applied := s.applied[k := s.applied[k] + 1], model := t.Apply(s.model, t.grids[g][s.applied[k]]));
      assert ApplyNext(t, k, s, s');
    } else {
      assert Finish(t, k, s, s.(stage := s.stage[k := Stage.Finished]));
    }
  }

  lemma ReleaseMoves<Cell>(t: Training<Cell>, s: State<Cell>, k: nat)
    requires Safe(t, s) && k < |s.stage| && (s.stage[k] == Consuming || s.stage[k] == Releasing)
    ensures exists s' :: ReleaseRow(t, k, s, s') || ReleaseCol(t, k, s, s')
  {
    var g := s.dispatched[k];
    GridPosition(t, g);
    if s.stage[k] == Consuming {
      assert ReleaseRow(t, k, s, s.(stage := s.stage[k := Releasing], rowBlocked := s.rowBlocked[t.RowOf(g) := false]));
    } else {
      assert ReleaseCol(t, k, s, s.(stage := s.stage[k := Retired], colBlocked := s.colBlocked[t.ColOf(g) := false]));
    }
  }

  ghost predicate SomeBlockMoves<Cell(!new)>(t: Training<Cell>, s: State<Cell>) {
    exists w, k, s' :: BlockMoves(t, s, w, k, s')
  }

  lemma ConsumingMoves<Cell(!new)>(t: Training<Cell>, s: State<Cell>, k: nat)
    requires Safe(t, s) && k < |s.stage| && (s.stage[k] == Consuming || s.stage[k] == Releasing)
    ensures SomeBlockMoves(t, s)
  {
    hide Safe;
    ReleaseMoves(t, s, k);
    var s' :| ReleaseRow(t, k, s, s') || ReleaseCol(t, k, s, s');
    assert BlockMoves(t, s, 0, k, s');
  }

  lemma FinishedMoves<Cell(!new)>(t: Training<Cell>, s: State<Cell>, k: nat)
    requires k < |s.stage| && s.stage[k] == Stage.Finished && Consuming !in s.stage && Releasing !in s.stage
    ensures SomeBlockMoves(t, s)
  {
    assert BlockMoves(t, s, 0, k, s.(stage := s.stage[k := Consuming]));
  }

  lemma WorkerMoves<Cell(!new)>(t: Training<Cell>, s: State<Cell>, k: nat)
    requires Safe(t, s) && k < |s.stage| && s.stage[k].Working? && Stage.Finished !in s.stage
    ensures SomeBlockMoves(t, s)
  {
    hide Safe;
    WorkingMoves(t, s, k);
    var s' :| ApplyNext(t, k, s, s') || Finish(t, k, s, s');
    assert BlockMoves(t, s, 0, k, s');
  }

  lemma QueuedMoves<Cell(!new)>(t: Training<Cell>, s: State<Cell>, k: nat)
    requires k < |s.stage| && s.stage[k] == Queued && t.numWorker > 0 && Working(0) !in s.stage
    ensures SomeBlockMoves(t, s)
  {
    assert BlockMoves(t, s, 0, k, s.(stage := s.stage[k := Working(0)]));
  }

  lemma HeldMoves<Cell(!new)>(t: Training<Cell>, s: State<Cell>, k: nat)
    requires k < |s.stage| && s.stage[k] == Held && s.pc == Putting && Queued !in s.stage
    ensures SomeBlockMoves(t, s)
  {
    assert BlockMoves(t, s, 0, k, s.(pc := Checking, stage := s.stage[k := Queued]));
  }

  lemma PlaceOfStage(stage: seq<Stage>, x: Stage) returns (k: nat)
    requires x in stage
    ensures k < |stage| && stage[k] == x
  {
    k :| k < |stage| && stage[k] == x;
  }

  /** As long as a block is in flight and there is a worker, some block can be moved on. */
  lemma FlightMoves<Cell(!new)>(t: Training<Cell>, s: State<Cell>, i: nat)
    requires Safe(t, s) && Tidy(t, s) && t.numWorker > 0 && InFlight(s, i)
    ensures SomeBlockMoves(t, s)
  {
    hide Blocking, ApartSince, ScanSound, SomeBlockMoves;
    var stage := s.stage;
    if Consuming in stage {
      var k := PlaceOfStage(stage, Consuming);
      ConsumingMoves(t, s, k);
    } else if Releasing in stage {
      var k := PlaceOfStage(stage, Releasing);
      ConsumingMoves(t, s, k);
    } else if Stage.Finished in stage {
      var k := PlaceOfStage(stage, Stage.Finished);
      FinishedMoves(t, s, k);
    } else if stage[i].Working? {
      WorkerMoves(t, s, i);
    } else if Working(0) in stage {
      var k := PlaceOfStage(stage, Working(0));
      WorkerMoves(t, s, k);
    } else if Queued in stage {
      var k := PlaceOfStage(stage, Queued);
      QueuedMoves(t, s, k);
    } else {
      assert stage[i] in stage;
      HeldMoves(t, s, i);
    }
  }

  ghost predicate Invariant<Cell>(t: Training<Cell>, m: Model<Cell>, s: State<Cell>) {
    Safe(t, s) && Counts(t, s) && Complete(t, s) && Serial(t, m, s) && Tidy(t, s)
  }

  lemma StepKeeps<Cell(!new)>(t: Training<Cell>, m: Model<Cell>, s: State<Cell>, s': State<Cell>)
    requires Invariant(t, m, s) && Next(t, s, s')
    ensures Invariant(t, m, s')
  {
    var w, k :| StepOf(t, s, w, k, s');
    StepSafe(t, s, w, k, s');
    StepCounts(t, s, w, k, s');
    StepComplete(t, s, w, k, s');
    StepSerial(t, m, s, w, k, s');
    StepOwned(t, s, w, k, s');
    StepInHand(t, s, w, k, s');
  }

  // ----- Whole runs -----

  ghost predicate IsRun<Cell(!new)>(t: Training<Cell>, states: seq<State<Cell>>) {
    && |states| > 0 && Starts(t, states[0])
    && forall n :: 0 <= n < |states| - 1 ==> Next(t, states[n], states[n + 1])
  }

  lemma {:induction false} RunKeeps<Cell(!new)>(t: Training<Cell>, states: seq<State<Cell>>, n: nat)
    requires IsRun(t, states) && n < |states|
    ensures Invariant(t, states[0].model, states[n])
    decreases n
  {
    if n > 0 {
      RunKeeps(t, states, n - 1);
      assert Next(t, states[n - 1], states[n - 1 + 1]);
      StepKeeps(t, states[0].model, states[n - 1], states[n]);
    }
  }

  /** In every reachable state the blocks in flight have pairwise different rows and columns. */
  lemma InFlightApart<Cell(!new)>(t: Training<Cell>, states: seq<State<Cell>>, n: nat, i: int, j: int)
    requires IsRun(t, states) && n < |states|
    requires i != j && InFlight(states[n], i) && InFlight(states[n], j)
    ensures |states[n].dispatched| == |states[n].stage| && t.numCol > 0
    ensures t.Apart(states[n].dispatched[i], states[n].dispatched[j])
  {
    RunKeeps(t, states, n);
    FlightApart(t, states[n], i, j);
  }

  /** In every reachable state with a block in flight some block can be moved on. */
  lemma NeverStuck<Cell(!new)>(t: Training<Cell>, states: seq<State<Cell>>, n: nat, i: nat)
    requires IsRun(t, states) && n < |states| && t.numWorker > 0 && InFlight(states[n], i)
    ensures SomeBlockMoves(t, states[n])
  {
    RunKeeps(t, states, n);
    FlightMoves(t, states[n], i);
  }

  ghost predicate Ended<Cell>(s: State<Cell>) {
    s.pc == Done && forall k :: 0 <= k < |s.stage| ==> s.stage[k] == Retired
  }

  /** The blocks run to their end one by one. */
  ghost function OneByOne<Cell>(t: Training<Cell>, m: Model<Cell>, blocks: seq<int>): (r: Model<Cell>)
    requires t.Valid() && t.Fits(m) && forall k :: 0 <= k < |blocks| ==> t.IsGrid(blocks[k])
    ensures t.Fits(r)
    decreases |blocks|
  {
    if |blocks| == 0 then m else
      var k := |blocks| - 1;
      t.ApplyFirst(OneByOne(t, m, blocks[..k]), blocks[k], |t.grids[blocks[k]]|)
  }

  lemma {:induction false} FullyApplied<Cell>(t: Training<Cell>, m: Model<Cell>, blocks: seq<int>, applied: seq<nat>)
    requires t.Valid() && t.Fits(m) && t.Applicable(blocks, applied)
    requires forall k :: 0 <= k < |blocks| ==> applied[k] == |t.grids[blocks[k]]|
    ensures t.Serially(m, blocks, applied) == OneByOne(t, m, blocks)
    decreases |blocks|
  {
    if |blocks| > 0 {
      var k := |blocks| - 1;
      FullyApplied(t, m, blocks[..k], applied[..k]);
    }
  }

  /**
   A finished run leaves the model that running its blocks one by one in dispatch order leaves, and it
   has dispatched every block exactly iterations - 1 times.
   */
  lemma Serialisable<Cell(!new)>(t: Training<Cell>, states: seq<State<Cell>>, n: nat)
    requires IsRun(t, states) && n < |states| && Ended(states[n])
    ensures forall k :: 0 <= k < |states[n].dispatched| ==> t.IsGrid(states[n].dispatched[k])
    ensures states[n].model == OneByOne(t, states[0].model, states[n].dispatched)
    ensures forall g :: t.IsGrid(g) ==> multiset(states[n].dispatched)[g] == t.iterations - 1
  {
    RunKeeps(t, states, n);
    FullyApplied(t, states[0].model, states[n].dispatched, states[n].applied);
  }
}

/** The single-threaded pieces: one block's pass over its ratings, and the placement of ratings in the grid. */
module SgdBlocks {
  import opened Arithmetic
  import opened SgdModel

  /** Only cells of users in the row and of items in the column of the block differ. */
  ghost predicate OthersKept<Cell>(t: Training<Cell>, gridId: int, m: Model<Cell>, m': Model<Cell>)
    requires t.Valid() && t.IsGrid(gridId) && t.Fits(m) && t.Fits(m')
  {
    && (forall u :: 0 <= u < t.numUser && u / t.rowBlockSize != t.RowOf(gridId) ==> m'.users[u] == m.users[u])
    && (forall i :: 0 <= i < t.numItem && i / t.colBlockSize != t.ColOf(gridId) ==> m'.items[i] == m.items[i])
  }

  class ModelComputation<!Cell(==)> {
    const t: Training<Cell>
    var mUsers: seq<Cell>
    var mItems: seq<Cell>

    ghost function CurrentModel(): Model<Cell>
      reads this
    {
      Model(mUsers, mItems)
    }

    constructor (t: Training<Cell>, m: Model<Cell>)
      ensures this.t == t && CurrentModel() == m
    {
      this.t := t;
      mUsers, mItems := m.users, m.items;
    }

    /** Applies the ratings of one block in order. */
    method SGDOneMatrix(gridId: int) returns (ghost models: seq<Model<Cell>>)
      requires t.Valid() && t.Fits(CurrentModel()) && t.IsGrid(gridId)
      modifies this
      ensures t.Fits(CurrentModel())
      ensures CurrentModel() == t.ApplyFirst(old(CurrentModel()), gridId, |t.grids[gridId]|)
      ensures OthersKept(t, gridId, old(CurrentModel()), CurrentModel())
      ensures |models| == |t.grids[gridId]| + 1 && models[0] == old(CurrentModel())
      ensures models[|t.grids[gridId]|] == CurrentModel()
      ensures forall k :: 0 <= k < |t.grids[gridId]| ==> t.Updated(models[k], t.grids[gridId][k], models[k + 1])
    {
      hide Training.Updated;
      ghost var m := CurrentModel();
      for i := 0 to |t.grids[gridId]|
        invariant CurrentModel() == t.ApplyFirst(m, gridId, i)
        invariant OthersKept(t, gridId, m, CurrentModel())
      {
        var node := t.grids[gridId][i];
        assert t.Placed(gridId);
        var (user, item) := t.sgd(mUsers[node.userId], mItems[node.itemId], node);
        mUsers, mItems := mUsers[node.userId := user], mItems[node.itemId := item];
      }
      models := t.BlockTrace(m, gridId, |t.grids[gridId]|);
    }
  }

  /** The least integer not below a / b. */
  function CeilDiv(a: nat, b: nat): (r: nat)
    requires b > 0
    ensures (r - 1) * b < a <= r * b
  {
    Divide(a + b - 1, b);
    (a + b - 1) / b
  }

  lemma BlockInRange(x: nat, total: nat, blocks: nat)
    requires x < total && blocks > 0
    ensures CeilDiv(total, blocks) > 0 && x / CeilDiv(total, blocks) < blocks
  {
    var size := CeilDiv(total, blocks);
    assert size != 0;
    assert size * blocks == blocks * size;
    RowInRange(x, blocks, size);
  }

  /** Node lies in the block of its user and its item. */
  ghost predicate InBlock(node: Node, gridId: int, numCol: nat, rowBlockSize: nat, colBlockSize: nat)
    requires numCol > 0 && rowBlockSize > 0 && colBlockSize > 0
  {
    node.userId / rowBlockSize == gridId / numCol && node.itemId / colBlockSize == gridId % numCol
  }

  ghost function Flatten(grids: seq<seq<Node>>): multiset<Node> {
    if |grids| == 0 then multiset{} else Flatten(grids[..|grids| - 1]) + multiset(grids[|grids| - 1])
  }

  lemma {:induction false} FlattenAdd(grids: seq<seq<Node>>, g: int, node: Node)
    requires 0 <= g < |grids|
    ensures Flatten(grids[g := grids[g] + [node]]) == Flatten(grids) + multiset{node}
    decreases |grids|
  {
    var k := |grids| - 1;
    var after := grids[g := grids[g] + [node]];
    if g < k {
      assert after[..k] == grids[..k][g := grids[..k][g] + [node]];
      FlattenAdd(grids[..k], g, node);
    } else {
      assert after[..k] == grids[..k];
    }
  }

  lemma {:induction false} FlattenEmpty(grids: seq<seq<Node>>)
    requires forall g :: 0 <= g < |grids| ==> grids[g] == []
    ensures Flatten(grids) == multiset{}
    decreases |grids|
  {
    if |grids| > 0 {
      FlattenEmpty(grids[..|grids| - 1]);
    }
  }

  ghost predicate AllInBlock(grids: seq<seq<Node>>, numCol: nat, rowBlockSize: nat, colBlockSize: nat)
    requires numCol > 0 && rowBlockSize > 0 && colBlockSize > 0
  {
    forall g, k :: 0 <= g < |grids| && 0 <= k < |grids[g]| ==>
        InBlock(grids[g][k], g, numCol, rowBlockSize, colBlockSize)
  }

  lemma GridIdInRange(node: Node, numRow: nat, numCol: nat, rowBlockSize: nat, colBlockSize: nat)
    requires rowBlockSize > 0 && colBlockSize > 0
    requires node.userId / rowBlockSize < numRow && node.itemId / colBlockSize < numCol
    ensures var gridId := node.userId / rowBlockSize * numCol + node.itemId / colBlockSize;
      0 <= gridId < numRow * numCol && InBlock(node, gridId, numCol, rowBlockSize, colBlockSize)
  {
    RowStep(numCol, node.userId / rowBlockSize, numRow);
    QuotientUnique(numCol, node.userId / rowBlockSize, node.itemId / colBlockSize);
  }

  method AddToGrid(grids: seq<seq<Node>>, gridId: int, node: Node, ghost numCol: nat, ghost rowBlockSize: nat,
      ghost colBlockSize: nat) returns (r: seq<seq<Node>>)
    requires numCol > 0 && rowBlockSize > 0 && colBlockSize > 0 && AllInBlock(grids, numCol, rowBlockSize, colBlockSize)
    requires 0 <= gridId < |grids| && InBlock(node, gridId, numCol, rowBlockSize, colBlockSize)
    ensures |r| == |grids| && Flatten(r) == Flatten(grids) + multiset{node}
    ensures AllInBlock(r, numCol, rowBlockSize, colBlockSize)
  {
    FlattenAdd(grids, gridId, node);
    r := grids[gridId := grids[gridId] + [node]];
  }

  /** Every rating goes to exactly one grid cell, the one of its user and its item. */
  method PlaceRatings(ratings: seq<Node>, numUser: nat, numItem: nat, numUserBlock: nat, numItemBlock: nat)
      returns (grids: seq<seq<Node>>)
    requires numUser > 0 && numItem > 0 && numUserBlock > 0 && numItemBlock > 0
    requires forall i :: 0 <= i < |ratings| ==> ratings[i].userId < numUser && ratings[i].itemId < numItem
    ensures |grids| == numUserBlock * numItemBlock && Flatten(grids) == multiset(ratings)
    ensures CeilDiv(numUser, numUserBlock) > 0 && CeilDiv(numItem, numItemBlock) > 0
    ensures AllInBlock(grids, numItemBlock, CeilDiv(numUser, numUserBlock), CeilDiv(numItem, numItemBlock))
  {
    var rowBlockSize := CeilDiv(numUser, numUserBlock);
    var colBlockSize := CeilDiv(numItem, numItemBlock);
    BlockInRange(0, numUser, numUserBlock);
    BlockInRange(0, numItem, numItemBlock);
    var numBlock := numUserBlock * numItemBlock;
    grids := seq(numBlock, _ => []);
    FlattenEmpty(grids);
    for i := 0 to |ratings|
      invariant |grids| == numBlock && Flatten(grids) == multiset(ratings[..i])
      invariant AllInBlock(grids, numItemBlock, rowBlockSize, colBlockSize)
    {
      var node := ratings[i];
      BlockInRange(node.userId, numUser, numUserBlock);
      BlockInRange(node.itemId, numItem, numItemBlock);
      GridIdInRange(node, numUserBlock, numItemBlock, rowBlockSize, colBlockSize);
      var gridRow := node.userId / rowBlockSize;
      var gridCol := node.itemId / colBlockSize;
      grids := AddToGrid(grids, gridRow * numItemBlock + gridCol, node, numItemBlock, rowBlockSize, colBlockSize);
      assert ratings[..i + 1] == ratings[..i] + [node];
    }
    assert ratings[..|ratings|] == ratings;
  }

  lemma {:induction false} PlacedNode(grids: seq<seq<Node>>, g: int, k: int)
    requires 0 <= g < |grids| && 0 <= k < |grids[g]|
    ensures grids[g][k] in Flatten(grids)
    decreases |grids|
  {
    var last := |grids| - 1;
    if g < last {
      PlacedNode(grids[..last], g, k);
    } else {
      assert grids[g][k] in multiset(grids[last]);
    }
  }

  /** The grid that PlaceRatings fills is one the training can run on. */
  lemma LoadedGridValid<Cell>(t: Training<Cell>, ratings: seq<Node>)
    requires t.numRow > 0 && t.numCol > 0 && t.rowBlockSize > 0 && t.colBlockSize > 0 && t.iterations > 0
    requires |t.grids| == t.numRow * t.numCol && Flatten(t.grids) == multiset(ratings)
    requires AllInBlock(t.grids, t.numCol, t.rowBlockSize, t.colBlockSize)
    requires forall i :: 0 <= i < |ratings| ==> ratings[i].userId < t.numUser && ratings[i].itemId < t.numItem
    ensures t.Valid()
  {
    forall g | t.IsGrid(g)
      ensures t.Placed(g)
    {
      forall k | 0 <= k < |t.grids[g]|
        ensures t.grids[g][k] in ratings && InBlock(t.grids[g][k], g, t.numCol, t.rowBlockSize, t.colBlockSize)
      {
        PlacedNode(t.grids, g, k);
        assert t.grids[g][k] in multiset(ratings);
      }
    }
  }
}
