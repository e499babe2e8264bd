/**
 How a training run goes on: no reachable state is a dead end, a scan of a grid with nothing in flight
 leads to a dispatch, and every run can be continued to its end.
 */
module SgdProgress {
  import opened Arithmetic
  import opened Sums
  import opened SgdModel
  import opened SgdSchedule

  /** A producer that is neither done nor waiting to put a block has a next step, when no block is being released. */
  lemma ProducerSteps<Cell(!new)>(t: Training<Cell>, s: State<Cell>) returns (k: nat, s': State<Cell>)
    requires Shaped(t, s) && ScanSound(t, s) && s.pc != Done && s.pc != Putting && Releasing !in s.stage
    ensures StepOf(t, s, 0, k, s')
  {
    k := 0;
    match s.pc
    case AtRow(i) =>
      if i < t.numRow {
        s' := s.(pc := if s.rowBlocked[i] then AtRow(i + 1) else AtCol(i, 0));
      } else if s.candidates == [] {
        s' := s.(pc := Checking, least := None);
      } else {
        k := s.candidates[0];
        assert BothFree(t, s, k);
        s' := s.(rowBlocked := s.rowBlocked[t.RowOf(k) := true], colBlocked := s.colBlocked[t.ColOf(k) := true],
                 count := s.count[k := s.count[k] + 1], dispatched := s.dispatched + [k],
                 stage := s.stage + [Held], applied := s.applied + [0],
                 pc := Putting, candidates := [], least := None);
        assert Choose(t, k, s, s');
      }
    case AtCol(i, j) =>
      if j < t.numCol {
        s' := ReadsCol(t, s);
      } else {
        s' := s.(pc := AtRow(i + 1));
      }
    case Checking =>
      s' := s.(pc := if forall g :: 0 <= g < |s.count| ==> s.count[g] >= t.iterations - 1 then Done else AtRow(0));
  }

  lemma ReadsCol<Cell>(t: Training<Cell>, s: State<Cell>) returns (s': State<Cell>)
    requires Shaped(t, s) && ScanSound(t, s) && s.pc.AtCol? && s.pc.j < t.numCol
    ensures ReadCol(t, s, s')
  {
    CellPosition(t, s.pc.i, s.pc.j);
    var gridId := s.pc.i * t.numCol + s.pc.j;
    var n := s.(pc := AtCol(s.pc.i, s.pc.j + 1));
    s' := if s.colBlocked[s.pc.j] || s.count[gridId] >= t.iterations - 1 then n
          else if s.least == Some(s.count[gridId]) then n.(candidates := s.candidates + [gridId])
          else if s.least == None || s.count[gridId] < s.least.value then
            n.(least := Some(s.count[gridId]), candidates := [gridId])
          else n;
  }

  /** No reachable state is a dead end: a run that has not ended can go on. */
  lemma CanGoOn<Cell(!new)>(t: Training<Cell>, states: seq<State<Cell>>, n: nat)
    requires IsRun(t, states) && n < |states| && t.numWorker > 0 && !Ended(states[n])
    ensures exists s' :: Next(t, states[n], s')
  {
    var s := states[n];
    RunKeeps(t, states, n);
    if i: nat :| InFlight(s, i) {
      FlightMoves(t, s, i);
      var w, k, s' :| BlockMoves(t, s, w, k, s');
      assert StepOf(t, s, w, k, s');
      assert Next(t, s, s');
    } else {
      NothingHeld(s);
      var k, s' := ProducerSteps(t, s);
      assert Next(t, s, s');
    }
  }

  ghost predicate NoFlight<Cell>(s: State<Cell>) {
    forall k :: 0 <= k < |s.stage| ==> s.stage[k] == Retired
  }

  lemma NothingHeld<Cell>(s: State<Cell>)
    requires forall i: nat :: !InFlight(s, i)
    ensures Held !in s.stage && Releasing !in s.stage && NoFlight(s)
  {
    forall k: nat | k < |s.stage|
      ensures s.stage[k] == Retired
    {
      assert !InFlight(s, k);
    }
  }

  // ----- Scanning a free grid -----

  /** How many grid cells the scan has passed. */
  ghost function Scanned<Cell>(t: Training<Cell>, pc: Pc): int {
    match pc
    case AtRow(i) => i * t.numCol
    case AtCol(i, j) => i * t.numCol + j
    case _ => 0
  }

  /** No flag is set, and a cell passed that is still to be dispatched has left a candidate. */
  ghost predicate ScansFree<Cell>(t: Training<Cell>, s: State<Cell>) {
    && t.Valid() && |s.rowBlocked| == t.numRow && |s.colBlocked| == t.numCol && |s.count| == |t.grids|
    && (forall r :: 0 <= r < t.numRow ==> !s.rowBlocked[r]) && (forall c :: 0 <= c < t.numCol ==> !s.colBlocked[c])
    && (s.pc.AtRow? || s.pc.AtCol?) && (s.pc.AtCol? ==> s.pc.j <= t.numCol)
    && (s.candidates == [] ==> s.least == None)
    && forall g :: 0 <= g < |s.count| && g < Scanned(t, s.pc) && s.count[g] < t.iterations - 1 ==> s.candidates != []
  }

  lemma ScanStep<Cell>(t: Training<Cell>, s: State<Cell>, s': State<Cell>)
    requires ScansFree(t, s) && (ReadRow(t, s, s') || ReadCol(t, s, s') || EndOfRow(t, s, s'))
    ensures ScansFree(t, s')
  {
    PassesOne(t, s, s');
    hide Scanned;
  }

  /** A read passes one cell, which is now a candidate or comes after one when it is to be dispatched, or none. */
  lemma PassesOne<Cell>(t: Training<Cell>, s: State<Cell>, s': State<Cell>)
    requires ScansFree(t, s) && (ReadRow(t, s, s') || ReadCol(t, s, s') || EndOfRow(t, s, s'))
    ensures Scanned(t, s'.pc) == Scanned(t, s.pc) + if ReadCol(t, s, s') then 1 else 0
    ensures ReadCol(t, s, s') ==> Scanned(t, s.pc) == s.pc.i * t.numCol + s.pc.j
  {
    if EndOfRow(t, s, s') {
      assert Scanned(t, s'.pc) == s.pc.i * t.numCol + t.numCol;
    }
  }

  /** A scan of a free grid ends with a block to choose, unless every block has been dispatched often enough. */
  lemma FreeScanFinds<Cell>(t: Training<Cell>, s: State<Cell>)
    requires ScansFree(t, s) && s.pc.AtRow? && s.pc.i >= t.numRow
    requires exists g :: 0 <= g < |s.count| && s.count[g] < t.iterations - 1
    ensures s.candidates != []
  {
    var g :| 0 <= g < |s.count| && s.count[g] < t.iterations - 1;
    if t.numRow < s.pc.i {
      RowStep(t.numCol, t.numRow, s.pc.i);
    }
  }

  ghost predicate CountLeft<Cell>(t: Training<Cell>, s: State<Cell>) {
    exists g :: 0 <= g < |s.count| && s.count[g] < t.iterations - 1
  }

  lemma FreeFlags<Cell>(t: Training<Cell>, s: State<Cell>)
    requires Shaped(t, s) && Owned(t, s) && NoFlight(s)
    ensures forall r :: 0 <= r < t.numRow ==> !s.rowBlocked[r]
    ensures forall c :: 0 <= c < t.numCol ==> !s.colBlocked[c]
  {
    assert forall r :: 0 <= r < t.numRow ==> !RowOwned(t, s, r);
    assert forall c :: 0 <= c < t.numCol ==> !ColOwned(t, s, c);
  }

  /** With no block in flight every flag is clear, so a scan that begins sees the whole grid free. */
  lemma NoFlightNoFlags<Cell(!new)>(t: Training<Cell>, states: seq<State<Cell>>, n: nat)
    requires IsRun(t, states) && n < |states| && NoFlight(states[n])
    ensures states[n].rowBlocked == seq(t.numRow, _ => false) && states[n].colBlocked == seq(t.numCol, _ => false)
    ensures states[n].pc == AtRow(0) ==> ScansFree(t, states[n])
  {
    RunKeeps(t, states, n);
    FreeFlags(t, states[n]);
  }

  ghost function Times(k: int, c: int): int {
    k * c
  }

  lemma OneRowMore(k: nat, c: nat)
    ensures Times(k + 1, c) == Times(k, c) + c && Times(k, c) >= 0
  {
  }

  /** An upper bound on the reads left in a scan. */
  ghost function ScanLeft<Cell>(t: Training<Cell>, pc: Pc): int {
    match pc
    case AtRow(i) => if i < t.numRow then Times(t.numRow - i, t.numCol + 2) else 0
    case AtCol(i, j) => Times(t.numRow - 1 - i, t.numCol + 2) + (t.numCol - j) + 1
    case _ => 0
  }

  ghost function WholeScan<Cell>(t: Training<Cell>): int {
    Times(t.numRow, t.numCol + 2)
  }

  /** Every read of a scan leaves fewer. */
  lemma ScanShrinks<Cell>(t: Training<Cell>, s: State<Cell>, s': State<Cell>)
    requires Shaped(t, s) && ScanSound(t, s) && (ReadRow(t, s, s') || ReadCol(t, s, s') || EndOfRow(t, s, s'))
    ensures 0 <= ScanLeft(t, s'.pc) < ScanLeft(t, s.pc)
  {
    hide Times;
    var i := s.pc.i;
    OneRowMore(t.numRow - i - 1, t.numCol + 2);
    if i + 1 < t.numRow {
      OneRowMore(t.numRow - i - 2, t.numCol + 2);
    }
  }

  /**
   With no block in flight, a free scan and a block left to dispatch, only the producer can take a step:
   it scans on, and every cell is still seen free, or it chooses a block. It never gives up empty-handed.
   */
  lemma FreeScanStep<Cell>(t: Training<Cell>, s: State<Cell>, w: nat, k: nat, s': State<Cell>)
    requires Safe(t, s) && ScansFree(t, s) && NoFlight(s) && CountLeft(t, s) && StepOf(t, s, w, k, s')
    ensures Choose(t, k, s, s') || (ScansFree(t, s') && NoFlight(s') && CountLeft(t, s')
                                    && 0 <= ScanLeft(t, s'.pc) < ScanLeft(t, s.pc))
  {
    if s.pc.AtRow? && s.pc.i >= t.numRow {
      FreeScanFinds(t, s);
    } else {
      ScanStep(t, s, s');
      ScanShrinks(t, s, s');
    }
  }

  /** In the run a block is chosen by the step that leaves state n. */
  ghost predicate ChoosesAt<Cell>(t: Training<Cell>, states: seq<State<Cell>>, n: nat) {
    n + 1 < |states| && Chooses(t, states[n], states[n + 1])
  }

  ghost predicate Chooses<Cell>(t: Training<Cell>, s: State<Cell>, s': State<Cell>) {
    exists g: nat :: Choose(t, g, s, s')
  }

  ghost predicate FreeScanAt<Cell>(t: Training<Cell>, s: State<Cell>) {
    ScansFree(t, s) && NoFlight(s) && CountLeft(t, s)
  }

  lemma {:induction false} FreeScanGoesOn<Cell(!new)>(t: Training<Cell>, states: seq<State<Cell>>, n: nat, d: nat)
    requires IsRun(t, states) && n + d < |states| && FreeScanAt(t, states[n])
    requires forall p :: n <= p < n + d ==> !ChoosesAt(t, states, p)
    ensures FreeScanAt(t, states[n + d]) && ScanLeft(t, states[n + d].pc) <= ScanLeft(t, states[n].pc) - d
    ensures d > 0 ==> ScanLeft(t, states[n + d].pc) >= 0
    decreases d
  {
    hide IsRun, ChoosesAt, FreeScanAt, ScanLeft;
    if d > 0 {
      FreeScanGoesOn(t, states, n, d - 1);
      FreeScanOn(t, states, n + d - 1);
    }
  }

  lemma FreeScanOn<Cell(!new)>(t: Training<Cell>, states: seq<State<Cell>>, n: nat)
    requires IsRun(t, states) && n + 1 < |states| && FreeScanAt(t, states[n]) && !ChoosesAt(t, states, n)
    ensures FreeScanAt(t, states[n + 1]) && 0 <= ScanLeft(t, states[n + 1].pc) < ScanLeft(t, states[n].pc)
  {
    RunKeeps(t, states, n);
    assert Next(t, states[n], states[n + 1]);
    var w, k :| StepOf(t, states[n], w, k, states[n + 1]);
    FreeScanStep(t, states[n], w, k, states[n + 1]);
  }

  /**
   In every run, a scan that begins with no block in flight and a block left to dispatch chooses one within as
   many steps as a whole scan may take and one more, whatever the schedule.
   */
  lemma FreeScanChooses<Cell(!new)>(t: Training<Cell>, states: seq<State<Cell>>, n: nat)
    requires IsRun(t, states) && n + WholeScan(t) + 1 < |states|
    requires states[n].pc == AtRow(0) && NoFlight(states[n]) && CountLeft(t, states[n])
    ensures exists p :: n <= p <= n + WholeScan(t) && ChoosesAt(t, states, p)
  {
    NoFlightNoFlags(t, states, n);
    if forall p :: n <= p <= n + WholeScan(t) ==> !ChoosesAt(t, states, p) {
      FreeScanGoesOn(t, states, n, WholeScan(t) + 1);
    }
  }

  // ----- Which block is dispatched -----

  ghost predicate InScan(pc: Pc) {
    pc.AtRow? || pc.AtCol?
  }

  /** The cell has been passed, both its flags were clear in s0, and it is to be dispatched again. */
  ghost predicate Offered<Cell>(t: Training<Cell>, s0: State<Cell>, s: State<Cell>, g: int)
    requires Shaped(t, s0) && Shaped(t, s)
  {
    0 <= g < |s.count| && g < Scanned(t, s.pc) && BothFree(t, s0, g) && s.count[g] < t.iterations - 1
  }

  /**
   During the scan that began in s0 the candidates share the least count seen, no cell offered has a lower
   one, and every cell offered with that count is a candidate.
   */
  ghost predicate SeesLeast<Cell>(t: Training<Cell>, s0: State<Cell>, s: State<Cell>)
    requires Shaped(t, s0) && Shaped(t, s)
  {
    && InScan(s.pc) && s.count == s0.count
    && (forall g :: BothFree(t, s0, g) ==> BothFree(t, s, g))
    && (forall c :: c in s.candidates ==> 0 <= c < |s.count| && s.least == Some(s.count[c]))
    && (forall g :: Offered(t, s0, s, g) ==> s.least.Some? && s.least.value <= s.count[g])
    && (forall g :: Offered(t, s0, s, g) && s.least == Some(s.count[g]) ==> g in s.candidates)
  }

  lemma ScanBegins<Cell>(t: Training<Cell>, s: State<Cell>)
    requires Shaped(t, s) && InHand(s) && s.pc == AtRow(0)
    ensures SeesLeast(t, s, s)
  {
  }

  lemma RowPassed<Cell>(t: Training<Cell>, s: State<Cell>, i: nat, g: int)
    requires Shaped(t, s) && i < t.numRow && i * t.numCol <= g < (i + 1) * t.numCol && s.rowBlocked[i]
    ensures !BothFree(t, s, g)
  {
    QuotientUnique(t.numCol, i, g - i * t.numCol);
  }

  lemma SeesRow<Cell>(t: Training<Cell>, s0: State<Cell>, s: State<Cell>, s': State<Cell>)
    requires Shaped(t, s0) && Safe(t, s) && Shaped(t, s') && SeesLeast(t, s0, s)
    requires ReadRow(t, s, s') || EndOfRow(t, s, s')
    ensures SeesLeast(t, s0, s')
  {
    forall g | Offered(t, s0, s', g)
      ensures Offered(t, s0, s, g)
    {
      if g >= Scanned(t, s.pc) {
        RowPassed(t, s, s.pc.i, g);
      }
    }
  }

  lemma SeesCell<Cell>(t: Training<Cell>, s0: State<Cell>, s: State<Cell>, s': State<Cell>)
    requires Shaped(t, s0) && Safe(t, s) && Shaped(t, s') && SeesLeast(t, s0, s) && ReadCol(t, s, s')
    ensures SeesLeast(t, s0, s')
  {
    var gridId := s.pc.i * t.numCol + s.pc.j;
    CellPosition(t, s.pc.i, s.pc.j);
    forall g | Offered(t, s0, s', g)
      ensures Offered(t, s0, s, g) || (g == gridId && !s.colBlocked[s.pc.j])
    {
      assert BothFree(t, s, g);
    }
  }

  /** No other thread sets a flag, changes a count or touches the scan. */
  lemma SeesOthers<Cell>(t: Training<Cell>, s0: State<Cell>, s: State<Cell>, s': State<Cell>)
    requires Shaped(t, s0) && Shaped(t, s) && Shaped(t, s') && SeesLeast(t, s0, s)
    requires s'.pc == s.pc && s'.count == s.count && s'.candidates == s.candidates && s'.least == s.least
    requires forall g :: BothFree(t, s, g) ==> BothFree(t, s', g)
    ensures SeesLeast(t, s0, s')
  {
    assert forall g :: Offered(t, s0, s', g) ==> Offered(t, s0, s, g);
  }

  lemma OthersClear<Cell>(t: Training<Cell>, s: State<Cell>, w: nat, k: nat, s': State<Cell>)
    requires Shaped(t, s) && Shaped(t, s') && InScan(s.pc) && BlockMoves(t, s, w, k, s')
    ensures s'.pc == s.pc && s'.count == s.count && s'.candidates == s.candidates && s'.least == s.least
    ensures forall g :: BothFree(t, s, g) ==> BothFree(t, s', g)
  {
  }

  lemma SeesStep<Cell>(t: Training<Cell>, s0: State<Cell>, s: State<Cell>, w: nat, k: nat, s': State<Cell>)
    requires Shaped(t, s0) && Safe(t, s) && Shaped(t, s') && SeesLeast(t, s0, s)
    requires StepOf(t, s, w, k, s') && InScan(s'.pc)
    ensures SeesLeast(t, s0, s')
  {
    hide SeesLeast, Blocking, ApartSince;
    ScanGoesOn(t, s0, s, w, k, s');
    if ReadRow(t, s, s') || EndOfRow(t, s, s') {
      SeesRow(t, s0, s, s');
    } else if ReadCol(t, s, s') {
      SeesCell(t, s0, s, s');
    } else {
      OthersClear(t, s, w, k, s');
      SeesOthers(t, s0, s, s');
    }
  }

  lemma ScanGoesOn<Cell>(t: Training<Cell>, s0: State<Cell>, s: State<Cell>, w: nat, k: nat, s': State<Cell>)
    requires Shaped(t, s0) && Shaped(t, s) && SeesLeast(t, s0, s) && StepOf(t, s, w, k, s') && InScan(s'.pc)
    ensures InScan(s.pc)
    ensures ReadRow(t, s, s') || EndOfRow(t, s, s') || ReadCol(t, s, s') || BlockMoves(t, s, w, k, s')
  {
  }

  ghost predicate ScansFrom<Cell>(states: seq<State<Cell>>, n: nat, m: nat) {
    n <= m < |states| && states[n].pc == AtRow(0) && forall p :: n <= p <= m ==> InScan(states[p].pc)
  }

  lemma {:induction false} RunSeesLeast<Cell(!new)>(t: Training<Cell>, states: seq<State<Cell>>, n: nat, m: nat)
    requires IsRun(t, states) && ScansFrom(states, n, m)
    ensures Shaped(t, states[n]) && Shaped(t, states[m]) && SeesLeast(t, states[n], states[m])
    decreases m
  {
    hide IsRun, SeesLeast;
    RunShaped(t, states, n);
    RunShaped(t, states, m);
    if n == m {
      ScanBegins(t, states[n]);
    } else {
      RunSeesLeast(t, states, n, m - 1);
      RunStepSees(t, states, states[n], m - 1);
    }
  }

  lemma RunShaped<Cell(!new)>(t: Training<Cell>, states: seq<State<Cell>>, n: nat)
    requires IsRun(t, states) && n < |states|
    ensures Shaped(t, states[n]) && InHand(states[n])
  {
    RunKeeps(t, states, n);
  }

  lemma RunStepSees<Cell(!new)>(t: Training<Cell>, states: seq<State<Cell>>, s0: State<Cell>, m: nat)
    requires IsRun(t, states) && m + 1 < |states| && Shaped(t, s0) && InScan(states[m + 1].pc)
    requires Shaped(t, states[m]) && SeesLeast(t, s0, states[m])
    ensures Shaped(t, states[m + 1]) && SeesLeast(t, s0, states[m + 1])
  {
    hide SeesLeast, Invariant, Next, Shaped;
    RunKeeps(t, states, m);
    RunKeeps(t, states, m + 1);
    InvariantShaped(t, states[0].model, states[m + 1]);
    NextSees(t, states[0].model, s0, states[m], states[m + 1]);
  }

  lemma InvariantShaped<Cell(!new)>(t: Training<Cell>, m: Model<Cell>, s: State<Cell>)
    requires Invariant(t, m, s)
    ensures Shaped(t, s)
  {
  }

  lemma NextSees<Cell(!new)>(t: Training<Cell>, m: Model<Cell>, s0: State<Cell>, s: State<Cell>, s': State<Cell>)
    requires Shaped(t, s0) && Invariant(t, m, s) && Invariant(t, m, s') && SeesLeast(t, s0, s)
    requires Next(t, s, s') && InScan(s'.pc)
    ensures SeesLeast(t, s0, s')
  {
    hide SeesLeast, StepOf;
    var w, k :| StepOf(t, s, w, k, s');
    SeesStep(t, s0, s, w, k, s');
  }

  /**
   In every run the block chosen at the end of a scan is a least dispatched one: no block whose row and column
   were free when the scan began, and that is still to be dispatched, has been dispatched less often. And every
   such block dispatched as often might have been chosen as well.
   */
  lemma ChoosesLeast<Cell(!new)>(t: Training<Cell>, states: seq<State<Cell>>, n: nat, m: nat, g: nat, h: int)
    requires IsRun(t, states) && ScansFrom(states, n, m) && m + 1 < |states|
    requires Choose(t, g, states[m], states[m + 1])
    requires Shaped(t, states[n]) && BothFree(t, states[n], h)
    requires 0 <= h < |states[m].count| && states[m].count[h] < t.iterations - 1
    ensures g < |states[m].count| && states[m].count[g] <= states[m].count[h]
    ensures states[m].count[g] == states[m].count[h] ==> h in states[m].candidates
  {
    RunSeesLeast(t, states, n, m);
    var s := states[m];
    if t.numRow < s.pc.i {
      RowStep(t.numCol, t.numRow, s.pc.i);
    }
    assert Offered(t, states[n], s, h);
    assert g in s.candidates;
  }

  // ----- Every run can be continued to its end -----

  function StageWork(stage: Stage): nat {
    match stage
    case Held => 6
    case Queued => 5
    case Working(_) => 4
    case Finished => 3
    case Consuming => 2
    case Releasing => 1
    case Retired => 0
  }

  ghost function BlockWork<Cell>(t: Training<Cell>, s: State<Cell>, k: nat): int
    requires Shaped(t, s) && k < |s.stage|
  {
    StageWork(s.stage[k]) + |t.grids[s.dispatched[k]]| - s.applied[k]
  }

  /** What the blocks dispatched still need: their stages and the ratings not yet applied. */
  ghost function FlightWork<Cell>(t: Training<Cell>, s: State<Cell>): int
    requires Shaped(t, s)
  {
    Sum(seq(|s.stage|, k requires 0 <= k < |s.stage| => BlockWork(t, s, k)))
  }

  ghost function ToDispatch<Cell>(t: Training<Cell>, s: State<Cell>): int {
    Sum(seq(|s.count|, g requires 0 <= g < |s.count| => t.iterations - 1 - s.count[g]))
  }

  /** How far the producer is from its next choice or its end when no block is in flight. */
  ghost function ProducerWork<Cell>(t: Training<Cell>, s: State<Cell>): int {
    match s.pc
    case Done => 0
    case Putting => 0
    case Checking => WholeScan(t) + 2
    case _ =>
      if ScansFree(t, s) && CountLeft(t, s) then 1 + ScanLeft(t, s.pc) else WholeScan(t) + 3 + ScanLeft(t, s.pc)
  }

  lemma WorkNatural<Cell>(t: Training<Cell>, s: State<Cell>)
    requires Shaped(t, s) && Counts(t, s)
    ensures FlightWork(t, s) >= 0 && ToDispatch(t, s) >= 0
  {
    SumZero(seq(|s.stage|, k requires 0 <= k < |s.stage| => BlockWork(t, s, k)));
    SumZero(seq(|s.count|, g requires 0 <= g < |s.count| => t.iterations - 1 - s.count[g]));
  }

  lemma BlockMovesOne<Cell>(t: Training<Cell>, s: State<Cell>, w: nat, k: nat, s': State<Cell>)
    requires Shaped(t, s) && Shaped(t, s') && BlockMoves(t, s, w, k, s')
    ensures |s'.stage| == |s.stage| && k < |s.stage| && s'.count == s.count
    ensures BlockWork(t, s', k) < BlockWork(t, s, k)
    ensures forall j :: 0 <= j < |s.stage| && j != k ==> BlockWork(t, s', j) == BlockWork(t, s, j)
  {
  }

  lemma BlockMoveWorks<Cell>(t: Training<Cell>, s: State<Cell>, w: nat, k: nat, s': State<Cell>)
    requires Shaped(t, s) && Shaped(t, s') && BlockMoves(t, s, w, k, s')
    ensures FlightWork(t, s') < FlightWork(t, s) && ToDispatch(t, s') == ToDispatch(t, s)
  {
    BlockMovesOne(t, s, w, k, s');
    hide BlockMoves, BlockWork;
    var ns := seq(|s.stage|, j requires 0 <= j < |s.stage| => BlockWork(t, s, j));
    var n := BlockWork(t, s', k);
    SumUpdate(ns, k, n);
    assert ns[k := n] == seq(|s'.stage|, j requires 0 <= j < |s'.stage| => BlockWork(t, s', j));
  }

  lemma ChooseWorks<Cell>(t: Training<Cell>, s: State<Cell>, g: nat, s': State<Cell>)
    requires Choose(t, g, s, s')
    ensures ToDispatch(t, s') < ToDispatch(t, s)
  {
    var ns := seq(|s.count|, h requires 0 <= h < |s.count| => t.iterations - 1 - s.count[h]);
    SumUpdate(ns, g, ns[g] - 1);
    assert ns[g := ns[g] - 1] == seq(|s'.count|, h requires 0 <= h < |s'.count| => t.iterations - 1 - s'.count[h]);
  }

  /** Less to dispatch, or as much and less with the blocks in flight, or as much and less for the producer. */
  ghost predicate Closer<Cell>(t: Training<Cell>, s: State<Cell>, s': State<Cell>)
    requires Shaped(t, s) && Shaped(t, s')
  {
    || ToDispatch(t, s') < ToDispatch(t, s)
    || (ToDispatch(t, s') == ToDispatch(t, s) && FlightWork(t, s') < FlightWork(t, s))
    || (ToDispatch(t, s') == ToDispatch(t, s) && FlightWork(t, s') == FlightWork(t, s)
        && 0 <= ProducerWork(t, s') < ProducerWork(t, s))
  }

  lemma FlightCloser<Cell(!new)>(t: Training<Cell>, m: Model<Cell>, s: State<Cell>, i: nat) returns (s': State<Cell>)
    requires Invariant(t, m, s) && t.numWorker > 0 && InFlight(s, i)
    ensures Next(t, s, s') && Invariant(t, m, s') && Closer(t, s, s')
  {
    FlightMoves(t, s, i);
    var w, k, next :| BlockMoves(t, s, w, k, next);
    s' := next;
    assert StepOf(t, s, w, k, s');
    StepKeeps(t, m, s, s');
    BlockMoveWorks(t, s, w, k, s');
  }

  lemma ScanLeftNatural<Cell>(t: Training<Cell>, s: State<Cell>)
    requires Shaped(t, s) && ScanSound(t, s)
    ensures 0 <= ScanLeft(t, s.pc)
    ensures ScanLeft(t, AtRow(0)) == WholeScan(t) >= 0
  {
    hide Times;
    OneRowMore(t.numRow, t.numCol + 2);
    match s.pc
    case AtRow(i) =>
      if i < t.numRow {
        OneRowMore(t.numRow - i, t.numCol + 2);
      }
    case AtCol(i, j) =>
      OneRowMore(t.numRow - 1 - i, t.numCol + 2);
    case _ =>
  }

  lemma SameWork<Cell>(t: Training<Cell>, s: State<Cell>, s': State<Cell>)
    requires Shaped(t, s) && Shaped(t, s') && s'.count == s.count && s'.stage == s.stage
    requires s'.applied == s.applied && s'.dispatched == s.dispatched
    ensures FlightWork(t, s') == FlightWork(t, s) && ToDispatch(t, s') == ToDispatch(t, s)
  {
    assert seq(|s.stage|, j requires 0 <= j < |s.stage| => BlockWork(t, s, j)) ==
           seq(|s'.stage|, j requires 0 <= j < |s'.stage| => BlockWork(t, s', j));
  }

  lemma ReadCloser<Cell>(t: Training<Cell>, s: State<Cell>, s': State<Cell>)
    requires Safe(t, s) && (ReadRow(t, s, s') || ReadCol(t, s, s') || EndOfRow(t, s, s'))
    ensures 0 <= ProducerWork(t, s') < ProducerWork(t, s)
  {
    hide ScansFree, ScanLeft, CountLeft, Times;
    ScanShrinks(t, s, s');
    ScanWithin(t, s, s');
    ScanLeftNatural(t, s);
    if ScansFree(t, s) {
      ScanStep(t, s, s');
    }
  }

  lemma ScanWithin<Cell>(t: Training<Cell>, s: State<Cell>, s': State<Cell>)
    requires ReadRow(t, s, s') || ReadCol(t, s, s') || EndOfRow(t, s, s')
    ensures (s.pc.AtRow? || s.pc.AtCol?) && (s'.pc.AtRow? || s'.pc.AtCol?) && s'.count == s.count
    ensures CountLeft(t, s') <==> CountLeft(t, s)
  {
  }

  lemma ProducerFree<Cell>(t: Training<Cell>, s: State<Cell>)
    requires Shaped(t, s) && Tidy(t, s) && NoFlight(s)
    ensures s.pc != Putting && Releasing !in s.stage
  {
  }

  /** With nothing in flight each step the producer can take is a step closer to the end. */
  lemma ProducerStepCloser<Cell>(t: Training<Cell>, s: State<Cell>, k: nat, s': State<Cell>)
    requires Safe(t, s) && Tidy(t, s) && Safe(t, s') && NoFlight(s) && StepOf(t, s, 0, k, s')
    ensures Closer(t, s, s')
  {
    hide FlightWork, ToDispatch, ProducerWork, Blocking, ApartSince, ScanSound, Owned, InHand;
    if Choose(t, k, s, s') {
      ChooseWorks(t, s, k, s');
    } else if ReadRow(t, s, s') || ReadCol(t, s, s') || EndOfRow(t, s, s') {
      SameWork(t, s, s');
      ReadCloser(t, s, s');
    } else if NoCandidate(t, s, s') {
      SameWork(t, s, s');
      GivesUp(t, s, s');
    } else {
      SameWork(t, s, s');
      ChecksOn(t, s, s');
    }
  }

  lemma ProducerCloser<Cell(!new)>(t: Training<Cell>, m: Model<Cell>, s: State<Cell>) returns (s': State<Cell>)
    requires Invariant(t, m, s) && NoFlight(s) && s.pc != Done
    ensures Next(t, s, s') && Invariant(t, m, s') && Closer(t, s, s')
  {
    hide StepOf, Closer, Blocking, ApartSince, ScanSound, Owned, InHand, Counts, Complete, Serial;
    ProducerFree(t, s);
    var k, next := ProducerSteps(t, s);
    s' := next;
    assert Next(t, s, s');
    StepKeeps(t, m, s, s');
    ProducerStepCloser(t, s, k, s');
  }

  lemma GivesUp<Cell>(t: Training<Cell>, s: State<Cell>, s': State<Cell>)
    requires Safe(t, s) && NoCandidate(t, s, s')
    ensures 0 <= ProducerWork(t, s') < ProducerWork(t, s)
  {
    if ScansFree(t, s) && CountLeft(t, s) {
      FreeScanFinds(t, s);
    }
  }

  lemma ChecksOn<Cell>(t: Training<Cell>, s: State<Cell>, s': State<Cell>)
    requires Safe(t, s) && Tidy(t, s) && Safe(t, s') && NoFlight(s) && Check(t, s, s')
    ensures 0 <= ProducerWork(t, s') < ProducerWork(t, s)
  {
    FreeFlags(t, s);
    ScanLeftNatural(t, s');
  }

  /** From every state that keeps the invariant the run can be brought to its end. */
  lemma {:induction false} CanEnd<Cell(!new)>(t: Training<Cell>, m: Model<Cell>, s: State<Cell>)
      returns (run: seq<State<Cell>>)
    requires Invariant(t, m, s) && t.numWorker > 0
    ensures |run| > 0 && run[0] == s && Ended(run[|run| - 1])
    ensures forall n :: 0 <= n < |run| - 1 ==> Next(t, run[n], run[n + 1])
    decreases ToDispatch(t, s), FlightWork(t, s), ProducerWork(t, s)
  {
    hide Next, Closer, ToDispatch, FlightWork, ProducerWork;
    if Ended(s) {
      run := [s];
    } else {
      var s' := StepCloser(t, m, s);
      CloserDecreases(t, s, s');
      var rest := CanEnd(t, m, s');
      run := [s] + rest;
    }
  }

  lemma StepCloser<Cell(!new)>(t: Training<Cell>, m: Model<Cell>, s: State<Cell>) returns (s': State<Cell>)
    requires Invariant(t, m, s) && t.numWorker > 0 && !Ended(s)
    ensures Next(t, s, s') && Invariant(t, m, s') && Closer(t, s, s')
    ensures ToDispatch(t, s) >= 0 && FlightWork(t, s) >= 0
  {
    hide Next, Closer, ToDispatch, FlightWork;
    WorkNatural(t, s);
    if i: nat :| InFlight(s, i) {
      s' := FlightCloser(t, m, s, i);
    } else {
      NothingHeld(s);
      s' := ProducerCloser(t, m, s);
    }
  }

  lemma CloserDecreases<Cell>(t: Training<Cell>, s: State<Cell>, s': State<Cell>)
    requires Shaped(t, s) && Shaped(t, s') && Closer(t, s, s')
    ensures || ToDispatch(t, s') < ToDispatch(t, s)
            || (ToDispatch(t, s') == ToDispatch(t, s) && FlightWork(t, s') < FlightWork(t, s))
            || (ToDispatch(t, s') == ToDispatch(t, s) && FlightWork(t, s') == FlightWork(t, s)
                && 0 <= ProducerWork(t, s') < ProducerWork(t, s))
  {
  }

  /** A run continued by steps from its last state. */
  lemma Continued<Cell(!new)>(t: Training<Cell>, states: seq<State<Cell>>, run: seq<State<Cell>>)
    requires IsRun(t, states) && |run| > 0 && run[0] == states[|states| - 1]
    requires forall n :: 0 <= n < |run| - 1 ==> Next(t, run[n], run[n + 1])
    ensures IsRun(t, states + run[1..]) && (states + run[1..])[|states + run[1..]| - 1] == run[|run| - 1]
  {
    hide Next, Starts;
    var all, last := states + run[1..], |states| - 1;
    forall n | 0 <= n < |all| - 1
      ensures Next(t, all[n], all[n + 1])
    {
      if n >= last {
        assert all[n] == run[n - last] && all[n + 1] == run[n - last + 1];
      } else {
        assert all[n] == states[n] && all[n + 1] == states[n + 1];
      }
    }
  }

  /** Every run can be continued to its end. */
  lemma EveryRunCanEnd<Cell(!new)>(t: Training<Cell>, states: seq<State<Cell>>) returns (more: seq<State<Cell>>)
    requires IsRun(t, states) && t.numWorker > 0
    ensures IsRun(t, states + more) && Ended((states + more)[|states + more| - 1])
  {
    var last := |states| - 1;
    RunKeeps(t, states, last);
    var run := CanEnd(t, states[0].model, states[last]);
    Continued(t, states, run);
    more := run[1..];
  }
}
