/** Numbering the pairs below the diagonal row by row, and finding the pair of a number in closed form. */
module TriangularIndex {

  /** The number of pairs in the rows before row i. */
  function Triangle(i: nat): nat {
    if i == 0 then 0 else Triangle(i - 1) + (i - 1)
  }

  lemma {:induction false} TwiceTriangle(i: nat)
    ensures 2 * Triangle(i) == i * (i - 1)
    decreases i
  {
    if i > 0 {
      TwiceTriangle(i - 1);
      assert i * (i - 1) == (i - 1) * (i - 2) + 2 * (i - 1);
    }
  }

  lemma {:induction false} TriangleMonotonic(i: nat, j: nat)
    requires i < j
    ensures Triangle(i) + i <= Triangle(j)
    decreases j
  {
    if i < j - 1 {
      TriangleMonotonic(i, j - 1);
    }
  }

  /** The greatest integer whose square is at most x. */
  function SquareRoot(x: nat): (s: nat)
    ensures s * s <= x < (s + 1) * (s + 1)
  {
    if x == 0 then 0 else
      var s := SquareRoot(x - 1);
      if (s + 1) * (s + 1) <= x then s + 1 else s
  }

  function DecodeRow(t: nat): nat {
    (SquareRoot(8 * t + 1) + 1) / 2
  }

  function DecodeColumn(t: nat): int {
    t - DecodeRow(t) * (DecodeRow(t) - 1) / 2
  }

  function Encode(i: nat, j: nat): nat {
    Triangle(i) + j
  }

  lemma SquareLeast(a: nat, b: nat)
    requires a <= b
    ensures a * a <= b * b
  {
    assert b * b == a * a + (b - a) * (a + b);
  }

  lemma RootPositive(x: nat)
    requires x >= 1
    ensures SquareRoot(x) >= 1
  {
  }

  lemma OddSquare(i: nat)
    requires i >= 1
    ensures (2 * i - 1) * (2 * i - 1) == 8 * Triangle(i) + 1
    ensures (2 * i + 1) * (2 * i + 1) == 8 * Triangle(i + 1) + 1
  {
    TwiceTriangle(i);
    TwiceTriangle(i + 1);
    assert (2 * i - 1) * (2 * i - 1) == 4 * (i * (i - 1)) + 1;
    assert (2 * i + 1) * (2 * i + 1) == 4 * ((i + 1) * i) + 1;
  }

  /** The decoded row is the one that number t falls into. */
  lemma RowBounds(t: nat)
    ensures DecodeRow(t) >= 1 && Triangle(DecodeRow(t)) <= t < Triangle(DecodeRow(t) + 1)
  {
    var s, i := SquareRoot(8 * t + 1), DecodeRow(t);
    RootPositive(8 * t + 1);
    OddSquare(i);
    SquareLeast(2 * i - 1, s);
    SquareLeast(s + 1, 2 * i + 1);
  }

  lemma ColumnIsRest(t: nat)
    ensures DecodeColumn(t) == t - Triangle(DecodeRow(t)) && 0 <= DecodeColumn(t) < DecodeRow(t)
  {
    RowBounds(t);
    TwiceTriangle(DecodeRow(t));
  }

  /** Decoding yields a pair below the diagonal, and encoding it gives the number back. */
  lemma DecodeEncode(t: nat)
    ensures 0 <= DecodeColumn(t) < DecodeRow(t) && Encode(DecodeRow(t), DecodeColumn(t)) == t
  {
    ColumnIsRest(t);
  }

  /** Every pair below the diagonal is decoded from its number. */
  lemma EncodeDecode(i: nat, j: nat)
    requires j < i
    ensures DecodeRow(Encode(i, j)) == i && DecodeColumn(Encode(i, j)) == j
  {
    var t := Encode(i, j);
    RowBounds(t);
    ColumnIsRest(t);
    var r := DecodeRow(t);
    if r < i {
      NextRow(r, i);
    } else if i < r {
      NextRow(i, r);
    }
  }

  lemma NextRow(i: nat, j: nat)
    requires i < j
    ensures Triangle(i + 1) <= Triangle(j)
  {
    if i + 1 < j {
      TriangleMonotonic(i + 1, j);
    }
  }

  /** The pairs of n items have exactly the numbers below the number of tasks. */
  lemma InRange(n: nat, t: nat)
    ensures t < Triangle(n) <==> DecodeRow(t) < n
  {
    RowBounds(t);
    var r := DecodeRow(t);
    if r < n {
      NextRow(r, n);
    } else if n < r {
      TriangleMonotonic(n, r);
    }
  }
}

/** How the tasks are dealt out to the threads, and the table every interleaving of the threads leaves. */
module StaticSchedules {
  import opened Arithmetic
  import opened TriangularIndex

  function PerThread(total: nat, threads: nat): nat
    requires threads > 0
  {
    total / threads
  }

  function Begin(total: nat, threads: nat, k: nat): nat
    requires threads > 0
  {
    k * PerThread(total, threads)
  }

  function End(total: nat, threads: nat, k: nat): nat
    requires threads > 0 && k < threads
  {
    if k != threads - 1 then Begin(total, threads, k) + PerThread(total, threads) else total
  }

  function Owner(total: nat, threads: nat, t: nat): (k: nat)
    requires threads > 0
    ensures k < threads
  {
    var per := PerThread(total, threads);
    if per == 0 || t / per >= threads then threads - 1 else t / per
  }

  /** The ranges begin in order and the last one ends at the number of tasks. */
  lemma RangeOrder(total: nat, threads: nat, k: nat)
    requires threads > 0 && k < threads
    ensures Begin(total, threads, k) <= End(total, threads, k) <= total
  {
    var per := PerThread(total, threads);
    Divide(total, threads);
    RowStep(per, k, threads);
    assert per * threads == threads * per;
  }

  /** Every thread gets the quotient of the tasks, and the last one gets the remainder as well. */
  lemma RangeSizes(total: nat, threads: nat, k: nat)
    requires threads > 0 && k < threads
    ensures End(total, threads, k) - Begin(total, threads, k) ==
            total / threads + (if k == threads - 1 then total % threads else 0)
  {
    var per := PerThread(total, threads);
    Divide(total, threads);
    assert (threads - 1) * per + per == per * threads;
  }

  /** Every task is in the range of its owner and in no other. */
  lemma RangesPartition(total: nat, threads: nat, t: nat, k: nat)
    requires threads > 0 && t < total && k < threads
    ensures Begin(total, threads, k) <= t < End(total, threads, k) <==> k == Owner(total, threads, t)
  {
    var per := PerThread(total, threads);
    if per > 0 {
      Divide(t, per);
      var q := t / per;
      if k < q {
        RowStep(per, k, q);
      } else if q < k {
        RowStep(per, q, k);
      }
      if threads - 1 < q {
        RowStep(per, threads - 1, q);
      }
    }
  }

  type Table<T> = seq<seq<T>>

  ghost predicate Shape<T>(m: Table<T>, n: nat) {
    |m| == n && forall i :: 0 <= i < n ==> |m[i]| == i + 1
  }

  function Put<T>(m: Table<T>, i: nat, j: nat, v: T): Table<T>
    requires i < |m| && j < |m[i]|
  {
    m[i := m[i][j := v]]
  }

  /** What is read for a pair in either order. */
  function Cell<T>(m: Table<T>, i: nat, j: nat): T
    requires Shape(m, |m|) && i < |m| && j < |m|
  {
    if i < j then m[j][i] else m[i][j]
  }

  /** What is put for a pair is read for it in either order, and nothing else changes. */
  lemma CellAfterPut<T>(m: Table<T>, i: nat, j: nat, v: T, a: nat, b: nat)
    requires Shape(m, |m|) && i < |m| && j < |m| && a < |m| && b < |m|
    ensures var t := Put(m, if i < j then j else i, if i < j then i else j, v);
      Shape(t, |m|) && Cell(t, a, b) == if {a, b} == {i, j} then v else Cell(m, a, b)
  {
    assert a in {a, b} && b in {a, b} && i in {i, j} && j in {i, j};
  }

  /** The table with the similarity of every pair below the diagonal, computed with the smaller item first. */
  ghost function AllPairs<T>(first: Table<T>, sim: (int, int) -> T): Table<T>
    requires Shape(first, |first|)
  {
    seq(|first|, i requires 0 <= i < |first| =>
      seq(i + 1, j requires 0 <= j < i + 1 => if j < i then sim(j, i) else first[i][j]))
  }

  lemma IsAllPairs<T>(m: Table<T>, first: Table<T>, sim: (int, int) -> T)
    requires Shape(first, |first|) && Shape(m, |first|)
    requires forall i: nat, j: nat :: j <= i < |m| ==> m[i][j] == if j < i then sim(j, i) else first[i][j]
    ensures m == AllPairs(first, sim)
  {
    forall i | 0 <= i < |m|
      ensures m[i] == AllPairs(first, sim)[i]
    {
    }
  }

  ghost predicate IsSymmetric<T>(sim: (int, int) -> T) {
    forall i, j :: sim(i, j) == sim(j, i)
  }

  /** How far each thread is, and the table. */
  datatype Progress<T> = Progress(next: seq<nat>, table: Table<T>)

  ghost predicate Done<T>(n: nat, threads: nat, s: Progress<T>, t: nat)
    requires threads > 0 && |s.next| == threads
  {
    t < s.next[Owner(Triangle(n), threads, t)]
  }

  ghost predicate Initial<T>(n: nat, threads: nat, s: Progress<T>)
    requires threads > 0
  {
    && |s.next| == threads && Shape(s.table, n)
    && forall k :: 0 <= k < threads ==> s.next[k] == Begin(Triangle(n), threads, k)
  }

  /** Thread k handles its next task. */
  ghost predicate Step<T>(n: nat, threads: nat, sim: (int, int) -> T, s: Progress<T>, s': Progress<T>, k: nat)
    requires threads > 0
  {
    && |s.next| == threads && Shape(s.table, n) && k < threads
    && s.next[k] < End(Triangle(n), threads, k)
    && s'.next == s.next[k := s.next[k] + 1]
    && var i, j := DecodeRow(s.next[k]), DecodeColumn(s.next[k]);
       0 <= j < i < n && s'.table == Put(s.table, i, j, sim(i, j))
  }

  /** The done tasks have their value in the table, everything else is as it was at first. */
  ghost predicate Good<T>(n: nat, threads: nat, sim: (int, int) -> T, first: Table<T>, s: Progress<T>)
    requires threads > 0
  {
    && |s.next| == threads && Shape(s.table, n) && Shape(first, n)
    && (forall k :: 0 <= k < threads ==> Begin(Triangle(n), threads, k) <= s.next[k] <= End(Triangle(n), threads, k))
    && (forall i :: 0 <= i < n ==> s.table[i][i] == first[i][i])
    && forall i: nat, j: nat :: j < i < n ==>
         s.table[i][j] == if Done(n, threads, s, Encode(i, j)) then sim(i, j) else first[i][j]
  }

  lemma GoodAtFirst<T>(n: nat, threads: nat, sim: (int, int) -> T, s: Progress<T>)
    requires threads > 0 && Initial(n, threads, s)
    ensures Good(n, threads, sim, s.table, s)
  {
    var total := Triangle(n);
    forall k | 0 <= k < threads
      ensures Begin(total, threads, k) <= End(total, threads, k)
    {
      RangeOrder(total, threads, k);
    }
    forall i: nat, j: nat | j < i < n
      ensures !Done(n, threads, s, Encode(i, j))
    {
      PairHasTask(n, i, j);
      RangesPartition(total, threads, Encode(i, j), Owner(total, threads, Encode(i, j)));
    }
  }

  lemma PairHasTask(n: nat, i: nat, j: nat)
    requires j < i < n
    ensures Encode(i, j) < Triangle(n)
  {
    EncodeDecode(i, j);
    InRange(n, Encode(i, j));
  }

  /** A task of thread k is in its range, so it is owned by k, and it names a pair of the table. */
  lemma NextTask(n: nat, threads: nat, k: nat, t: nat)
    requires threads > 0 && k < threads && Begin(Triangle(n), threads, k) <= t < End(Triangle(n), threads, k)
    ensures Owner(Triangle(n), threads, t) == k && 0 <= DecodeColumn(t) < DecodeRow(t) < n
  {
    RangeOrder(Triangle(n), threads, k);
    RangesPartition(Triangle(n), threads, t, k);
    DecodeEncode(t);
    InRange(n, t);
  }

  /** No thread ever waits: as long as it has tasks left it can take a step. */
  lemma StepExists<T>(n: nat, threads: nat, sim: (int, int) -> T, first: Table<T>, s: Progress<T>, k: nat)
    requires threads > 0 && Good(n, threads, sim, first, s) && k < threads && s.next[k] < End(Triangle(n), threads, k)
    ensures exists s' :: Step(n, threads, sim, s, s', k)
  {
    var t := s.next[k];
    NextTask(n, threads, k, t);
    var i, j := DecodeRow(t), DecodeColumn(t);
    assert Step(n, threads, sim, s, Progress(s.next[k := t + 1], Put(s.table, i, j, sim(i, j))), k);
  }

  lemma StepKeeps<T>(n: nat, threads: nat, sim: (int, int) -> T, first: Table<T>, s: Progress<T>, s': Progress<T>,
      k: nat)
    requires threads > 0 && Good(n, threads, sim, first, s) && Step(n, threads, sim, s, s', k)
    ensures Good(n, threads, sim, first, s')
  {
    var t := s.next[k];
    NextTask(n, threads, k, t);
    forall i: nat, j: nat | j < i < n
      ensures s'.table[i][j] == if Done(n, threads, s', Encode(i, j)) then sim(i, j) else first[i][j]
    {
      PairStep(n, threads, s, s', k, i, j);
    }
  }

  /** Only the pair of the task handled becomes done, and only its cell is written. */
  lemma PairStep<T>(n: nat, threads: nat, s: Progress<T>, s': Progress<T>, k: nat, i: nat, j: nat)
    requires threads > 0 && |s.next| == threads && k < threads && s'.next == s.next[k := s.next[k] + 1] && j < i < n
    requires Owner(Triangle(n), threads, s.next[k]) == k
    ensures i == DecodeRow(s.next[k]) && j == DecodeColumn(s.next[k]) ==> Done(n, threads, s', Encode(i, j))
    ensures !(i == DecodeRow(s.next[k]) && j == DecodeColumn(s.next[k])) ==>
              (Done(n, threads, s', Encode(i, j)) <==> Done(n, threads, s, Encode(i, j)))
  {
    DecodeEncode(s.next[k]);
    EncodeDecode(i, j);
  }

  ghost predicate SomeStep<T>(n: nat, threads: nat, sim: (int, int) -> T, s: Progress<T>, s': Progress<T>)
    requires threads > 0
  {
    exists k :: Step(n, threads, sim, s, s', k)
  }

  ghost predicate Run<T>(n: nat, threads: nat, sim: (int, int) -> T, run: seq<Progress<T>>)
    requires threads > 0
  {
    && |run| > 0 && Initial(n, threads, run[0])
    && forall p :: 0 <= p < |run| - 1 ==> SomeStep(n, threads, sim, run[p], run[p + 1])
  }

  lemma {:induction false} RunGood<T>(n: nat, threads: nat, sim: (int, int) -> T, run: seq<Progress<T>>, p: nat)
    requires threads > 0 && Run(n, threads, sim, run) && p < |run|
    ensures Good(n, threads, sim, run[0].table, run[p])
    decreases p
  {
    if p == 0 {
      GoodAtFirst(n, threads, sim, run[0]);
    } else {
      RunGood(n, threads, sim, run, p - 1);
      assert SomeStep(n, threads, sim, run[p - 1], run[p - 1 + 1]);
      var k: nat :| Step(n, threads, sim, run[p - 1], run[p], k);
      StepKeeps(n, threads, sim, run[0].table, run[p - 1], run[p], k);
    }
  }

  ghost predicate Finished<T>(n: nat, threads: nat, s: Progress<T>)
    requires threads > 0
  {
    |s.next| == threads && forall k :: 0 <= k < threads ==> s.next[k] == End(Triangle(n), threads, k)
  }

  /** Whatever the interleaving, when all threads have ended every pair has its similarity. */
  lemma AllTasksDone<T>(n: nat, threads: nat, sim: (int, int) -> T, run: seq<Progress<T>>)
    requires threads > 0 && Run(n, threads, sim, run) && Finished(n, threads, run[|run| - 1])
    ensures Shape(run[|run| - 1].table, n)
    ensures forall i: nat, j: nat :: j < i < n ==> run[|run| - 1].table[i][j] == sim(i, j)
  {
    var s := run[|run| - 1];
    RunGood(n, threads, sim, run, |run| - 1);
    forall i: nat, j: nat | j < i < n
      ensures Done(n, threads, s, Encode(i, j))
    {
      PairHasTask(n, i, j);
      RangesPartition(Triangle(n), threads, Encode(i, j), Owner(Triangle(n), threads, Encode(i, j)));
    }
  }

  /** With a symmetric similarity every interleaving ends with the table of the single-threaded loops. */
  lemma FinishedTable<T>(n: nat, threads: nat, sim: (int, int) -> T, run: seq<Progress<T>>)
    requires threads > 0 && Run(n, threads, sim, run) && Finished(n, threads, run[|run| - 1]) && IsSymmetric(sim)
    ensures run[|run| - 1].table == AllPairs(run[0].table, sim)
  {
    RunGood(n, threads, sim, run, |run| - 1);
    AllTasksDone(n, threads, sim, run);
    IsAllPairs(run[|run| - 1].table, run[0].table, sim);
  }
}

module ItemBasedModels {
  import opened Similarities
  import opened TriangularIndex
  import opened StaticSchedules

  class SimilarityMatrix<T(0)> {
    var mMat: Table<T>

    ghost predicate Valid()
      reads this
    {
      Shape(mMat, |mMat|)
    }

    constructor (size: nat, zero: T)
      ensures Valid() && |mMat| == size
    {
      mMat := seq(size, i requires 0 <= i < size => seq(i + 1, j => zero));
    }

    method Put(i: nat, j: nat, sim: T)
      requires Valid() && i < |mMat| && j < |mMat|
      modifies this
      ensures Valid() && mMat == StaticSchedules.Put(old(mMat), if i < j then j else i, if i < j then i else j, sim)
      ensures forall a: nat, b: nat :: a < |mMat| && b < |mMat| ==>
                Get(a, b) == if {a, b} == {i, j} then sim else old(Cell(mMat, a, b))
    {
      ghost var m := mMat;
      if i < j {
        mMat := mMat[j := mMat[j][i := sim]];
      } else {
        mMat := mMat[i := mMat[i][j := sim]];
      }
      forall a: nat, b: nat | a < |mMat| && b < |mMat|
        ensures Cell(mMat, a, b) == if {a, b} == {i, j} then sim else Cell(m, a, b)
      {
        CellAfterPut(m, i, j, sim, a, b);
      }
    }

    function Get(i: nat, j: nat): T
      requires Valid() && i < |mMat| && j < |mMat|
      reads this
    {
      Cell(mMat, i, j)
    }

    method DirectPut(i: nat, j: nat, sim: T)
      requires Valid() && j <= i < |mMat|
      modifies this
      ensures Valid() && mMat == StaticSchedules.Put(old(mMat), i, j, sim)
    {
      mMat := mMat[i := mMat[i][j := sim]];
    }
  }

  /** The number of tasks dealt to the first k threads. */
  function Dealt(total: nat, threads: nat, k: nat): nat
    requires threads > 0 && k <= threads
  {
    if k == threads then total else Begin(total, threads, k)
  }

  lemma DealtNext(total: nat, threads: nat, k: nat)
    requires threads > 0 && k < threads
    ensures Dealt(total, threads, k) == Begin(total, threads, k)
        && Dealt(total, threads, k + 1) == End(total, threads, k)
    ensures Dealt(total, threads, 0) == 0
  {
  }

  /** The similarity of two items by their numbers. */
  ghost function PairSimilarity<F>(n: Numbers<F>, param: Parameter, data: seq<ItemVec<F>>): (int, int) -> F {
    (i: int, j: int) => if 0 <= i < |data| && 0 <= j < |data| then SimilarityOf(n, param, data[i], data[j]) else n.zero
  }

  lemma PairsSymmetric<F(!new)>(n: Numbers<F>, param: Parameter, data: seq<ItemVec<F>>)
    requires ProductsCommute(n)
    ensures IsSymmetric(PairSimilarity(n, param, data))
  {
    var sim := PairSimilarity(n, param, data);
    forall i, j
      ensures sim(i, j) == sim(j, i)
    {
      if 0 <= i < |data| && 0 <= j < |data| {
        hide SimilarityOf;
        Symmetric(n, param, data[i], data[j]);
      }
    }
  }

  /**
   Whatever the number of threads and their interleaving, the static schedule ends with the table that the
   single-threaded computation leaves.
   */
  lemma SameAsSingleThread<F(!new)>(n: Numbers<F>, param: Parameter, data: seq<ItemVec<F>>, threads: nat,
      run: seq<Progress<F>>)
    requires ProductsCommute(n) && threads > 0
    requires Run(|data|, threads, PairSimilarity(n, param, data), run) && Finished(|data|, threads, run[|run| - 1])
    ensures run[|run| - 1].table == AllPairs(run[0].table, PairSimilarity(n, param, data))
  {
    PairsSymmetric(n, param, data);
    FinishedTable(|data|, threads, PairSimilarity(n, param, data), run);
  }

  class ModelComputation<F(0)> {
    const mNumbers: Numbers<F>
    const mParameter: Parameter
    const mTrainData: seq<ItemVec<F>>
    const mModel: SimilarityMatrix<F>

    ghost predicate Valid()
      reads mModel
    {
      mModel.Valid() && |mModel.mMat| == |mTrainData|
    }

    ghost function Sim(): (int, int) -> F {
      PairSimilarity(mNumbers, mParameter, mTrainData)
    }

    constructor (numbers: Numbers<F>, parameter: Parameter, trainData: seq<ItemVec<F>>, model: SimilarityMatrix<F>)
      requires model.Valid() && |model.mMat| == |trainData|
      ensures Valid() && mModel == model && Sim() == PairSimilarity(numbers, parameter, trainData)
    {
      mNumbers, mParameter, mTrainData, mModel := numbers, parameter, trainData, model;
    }

    method SimilarityOfPair(iid1: nat, iid2: nat) returns (sim: F)
      requires iid1 < |mTrainData| && iid2 < |mTrainData|
      ensures sim == Sim()(iid1, iid2)
    {
      sim := ComputeSimilarity(mNumbers, mParameter, mTrainData[iid1], mTrainData[iid2]);
    }

    /** The single-threaded computation: pairs in rows of the smaller item. */
    method ComputeModel()
      requires Valid()
      modifies mModel
      ensures Valid() && mModel.mMat == AllPairs(old(mModel.mMat), Sim())
    {
      hide PairSimilarity;
      var n := |mTrainData|;
      ghost var first := mModel.mMat;
      for iid1 := 0 to n
        invariant Valid()
        invariant forall i: nat, j: nat :: j <= i < n ==>
                    mModel.mMat[i][j] == if j < i && j < iid1 then Sim()(j, i) else first[i][j]
      {
        for iid2 := iid1 + 1 to n
          invariant Valid()
          invariant forall i: nat, j: nat :: j <= i < n ==>
                      mModel.mMat[i][j] == if j < i && (j < iid1 || (j == iid1 && i < iid2)) then Sim()(j, i)
                          else first[i][j]
        {
          var sim := SimilarityOfPair(iid1, iid2);
          mModel.DirectPut(iid2, iid1, sim);
        }
      }
      IsAllPairs(mModel.mMat, first, Sim());
    }

    /** The static schedule with its threads run one after the other; StaticSchedules treats all interleavings. */
    method ComputeModelStatic(numThread: nat)
      requires Valid() && numThread > 0
      modifies mModel
      ensures Valid()
      ensures forall i: nat, j: nat :: j <= i < |mModel.mMat| ==>
                mModel.mMat[i][j] == if j < i then Sim()(i, j) else old(mModel.mMat[i][j])
      ensures IsSymmetric(Sim()) ==> mModel.mMat == AllPairs(old(mModel.mMat), Sim())
    {
      hide PairSimilarity;
      ghost var first := mModel.mMat;
      var numItem := |mTrainData|;
      TwiceTriangle(numItem);
      var totalTask := numItem * (numItem - 1) / 2;
      var taskPerThread := totalTask / numThread;
      for i := 0 to numThread
        invariant Valid()
        invariant forall a: nat, b: nat :: b <= a < numItem ==>
                    mModel.mMat[a][b] == if b < a && Encode(a, b) < Dealt(totalTask, numThread, i) then Sim()(a, b)
                        else old(mModel.mMat[a][b])
      {
        var begin := i * taskPerThread;
        var end := if i != numThread - 1 then begin + taskPerThread else totalTask;
        RangeOrder(totalTask, numThread, i);
        DealtNext(totalTask, numThread, i);
        ThreadRun(begin, end);
      }
      forall a: nat, b: nat | b < a < numItem
        ensures Encode(a, b) < totalTask
      {
        PairHasTask(numItem, a, b);
      }
      if IsSymmetric(Sim()) {
        IsAllPairs(mModel.mMat, first, Sim());
      }
    }

    /** What one thread does with its range, when the others leave its cells alone. */
    method ThreadRun(taskIdBegin: nat, taskIdEnd: nat)
      requires Valid() && taskIdBegin <= taskIdEnd <= Triangle(|mModel.mMat|)
      modifies mModel
      ensures Valid()
      ensures forall i: nat, j: nat :: j <= i < |mModel.mMat| ==>
                mModel.mMat[i][j] == if j < i && taskIdBegin <= Encode(i, j) < taskIdEnd then Sim()(i, j)
                    else old(mModel.mMat[i][j])
    {
      hide PairSimilarity;
      var n := |mTrainData|;
      for taskId := taskIdBegin to taskIdEnd
        invariant Valid()
        invariant forall i: nat, j: nat :: j <= i < n ==>
                    mModel.mMat[i][j] == if j < i && taskIdBegin <= Encode(i, j) < taskId then Sim()(i, j)
                        else old(mModel.mMat[i][j])
      {
        var iid1 := DecodeRow(taskId);
        var iid2 := DecodeColumn(taskId);
        DecodeEncode(taskId);
        InRange(n, taskId);
        forall i: nat, j: nat | j < i < n
          ensures Encode(i, j) == taskId ==> i == iid1 && j == iid2
        {
          EncodeDecode(i, j);
        }
        var sim := SimilarityOfPair(iid1, iid2);
        mModel.Put(iid1, iid2, sim);
      }
    }
  }
}
