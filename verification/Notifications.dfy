/** Notification delivery in netpulse/notifications.py: enqueue, the worker's attempts, and their rows. */
module Notifications {
  import opened Wrappers

  type Id = nat

  datatype Status = Queued | Sending | Sent | Failed | Interrupted

  datatype Row = Row(status: Status, attempts: nat)

  const SLOTS: nat := 32
  const ATTEMPTS: nat := 3
  const RETAINED: nat := 2000

  /** Where a delivery is that holds a slot. */
  datatype Phase = Claimed | Stored | Trying(k: nat) | InSend(k: nat) | Accepted(k: nat) | Caught(k: nat) | Finished

  /**
   What ended the work on a delivery: the worker pool refused it, or the write of `sending` or of
   `interrupted` at an attempt, or of `failed`, was lost; or a final status was written, by the worker or
   at the start of the next process.
   */
  datatype Ending =
    | Going
    | Refused
    | LostSending(k: nat)
    | LostInterrupted(k: nat)
    | LostFailed
    | Written
    | WrittenAtStart

  /** What happened so far: sends tried, sends that got through, `sent` writes lost, any write or hand-over lost. */
  datatype Tally = Tally(tried: nat, through: nat, unmarked: nat, lost: nat, killed: bool, ending: Ending)

  const NO_TALLY := Tally(0, 0, 0, 0, false, Going)

  /** One id: its row in notification_delivery, the worker on it, and its history. */
  datatype Delivery = Delivery(row: Option<Row>, phase: Option<Phase>, tally: Tally)

  datatype World = World(deliveries: map<Id, Delivery>, held: nat, stopped: bool)

  /** What happens to one id; the flags say whether a write, a hand-over or a send succeeds. */
  datatype Move =
    | Store(ok: bool)
    | HandOver(ok: bool)
    | Begin(stopped: bool, wrote: bool)
    | Send(ok: bool)
    | MarkSent(wrote: bool)
    | Recover(wrote: bool)
    | Release

  datatype Step =
    | Claim(id: Id)
    | Do(id: Id, move: Move, dropped: set<Id>)
    | Stop
    | Restart

  predicate Final(s: Status) { s.Sent? || s.Failed? || s.Interrupted? }

  predicate Possible(p: Phase, m: Move)
  {
    match m
    case Store(_) => p.Claimed?
    case HandOver(_) => p.Stored?
    case Begin(_, _) => p.Trying?
    case Send(_) => p.InSend?
    case MarkSent(_) => p.Accepted?
    case Recover(_) => p.Caught?
    case Release => p.Finished?
  }

  /** _status: an UPDATE, which does nothing to a row that is gone; a write that fails is remembered. */
  function Write(d: Delivery, row: Row, wrote: bool, otherwise: Ending): Delivery
  {
    if !wrote then d.(tally := d.tally.(lost := d.tally.lost + 1, ending := otherwise))
    else
      var e := d.(tally := d.tally.(ending := if Final(row.status) then Written else d.tally.ending));
      if d.row.Some? then e.(row := Some(row)) else e
  }

  function Next(d: Delivery, p: Phase): Delivery { d.(phase := Some(p)) }

  /** enqueue after the slot is taken, and _deliver, one statement at a time. */
  function Moved(d: Delivery, m: Move): Delivery
    requires d.phase.Some? && Possible(d.phase.value, m)
  {
    var p, t := d.phase.value, d.tally;
    match m
    case Store(ok) => if ok then Next(d, Stored).(row := Some(Row(Queued, 0))) else d.(phase := None)
    case HandOver(ok) => if ok then Next(d, Trying(1))
                         else d.(phase := None, tally := t.(lost := t.lost + 1, ending := Refused))
    case Begin(stopped, wrote) =>
      if stopped
      then Write(Next(d, Finished), Row(Interrupted, if p.k > 0 then p.k - 1 else 0), wrote, LostInterrupted(p.k))
      else Write(Next(d, if wrote then InSend(p.k) else Finished), Row(Sending, p.k), wrote, LostSending(p.k))
    case Send(ok) =>
      if ok then Next(d, Accepted(p.k)).(tally := t.(tried := t.tried + 1, through := t.through + 1))
      else Next(d, Caught(p.k)).(tally := t.(tried := t.tried + 1))
    case MarkSent(wrote) =>
      if wrote then Write(Next(d, Finished), Row(Sent, p.k), true, Going)
      else Next(d, Caught(p.k)).(tally := t.(unmarked := t.unmarked + 1, lost := t.lost + 1))
    case Recover(wrote) =>
      if p.k >= ATTEMPTS then Write(Next(d, Finished), Row(Failed, p.k), wrote, LostFailed)
      else Next(d, Trying(p.k + 1))
    case Release => d.(phase := None)
  }

  /** The retention query: it drops rows that are final, and of those it keeps 2000. */
  predicate Retention(ds: map<Id, Delivery>, dropped: set<Id>)
  {
    var final := set id | id in ds && ds[id].row.Some? && Final(ds[id].row.value.status);
    dropped <= final && |final - dropped| == if |final| > RETAINED then RETAINED else |final|
  }

  function WithoutRow(d: Delivery): Delivery { d.(row := None) }

  /** The start of a new process: no worker is left, and what looked alive becomes `interrupted`. */
  function Reset(d: Delivery): Delivery
  {
    Delivery(if d.row.Some? && !Final(d.row.value.status) then Some(d.row.value.(status := Interrupted)) else d.row,
             None,
             if d.phase.Some? then d.tally.(killed := true)
             else if d.row.Some? && !Final(d.row.value.status) then d.tally.(ending := WrittenAtStart)
             else d.tally)
  }

  predicate Enabled(w: World, s: Step)
  {
    match s
    case Claim(id) => w.held < SLOTS && id !in w.deliveries
    case Do(id, m, dropped) =>
      && id in w.deliveries && w.deliveries[id].phase.Some? && Possible(w.deliveries[id].phase.value, m)
      && (m.Begin? ==> m.stopped == w.stopped)
      && (if m.Store? && m.ok then Retention(w.deliveries, dropped) else dropped == {})
    case Stop => true
    case Restart => true
  }

  function After(w: World, s: Step): World
    requires Enabled(w, s)
  {
    match s
    case Claim(id) =>
      w.(deliveries := w.deliveries[id := Delivery(None, Some(Claimed), NO_TALLY)], held := w.held + 1)
    case Do(id, m, dropped) =>
      var d := Moved(w.deliveries[id], m);
      var ds := map i | i in w.deliveries ::
                  if i == id then d else if i in dropped then WithoutRow(w.deliveries[i]) else w.deliveries[i];
      w.(deliveries := ds, held := if d.phase.None? && w.held > 0 then w.held - 1 else w.held)
    case Stop => w.(stopped := true)
    case Restart => World(map i | i in w.deliveries :: Reset(w.deliveries[i]), 0, false)
  }

  // ---------- one delivery ----------

  predicate PhaseFacts(p: Phase, t: Tally)
  {
    match p
    case Claimed => t == NO_TALLY
    case Stored => t == NO_TALLY
    case Trying(k) => 1 <= k <= ATTEMPTS && t.tried == k - 1 && t.through == t.unmarked
    case InSend(k) => 1 <= k <= ATTEMPTS && t.tried == k - 1 && t.through == t.unmarked
    case Accepted(k) => 1 <= k <= ATTEMPTS && t.tried == k && t.through == t.unmarked + 1
    case Caught(k) => 1 <= k <= ATTEMPTS && t.tried == k && t.through == t.unmarked
    case Finished => true
  }

  /** The status a worker in some phase leaves in the row, as long as no write is lost. */
  predicate RowFollows(p: Phase, status: Status)
  {
    match p
    case Claimed => false
    case Stored => status == Queued
    case Trying(k) => status == if k == 1 then Queued else Sending
    case InSend(_) => status == Sending
    case Accepted(_) => status == Sending
    case Caught(_) => status == Sending
    case Finished => Final(status)
  }

  predicate Working(d: Delivery) { d.phase.Some? && d.phase.value != Finished }

  /** The status a row is left with, from what ended the work on it. */
  predicate LeftWith(status: Status, e: Ending)
  {
    && (status == Queued <==> e == Refused || e == LostSending(1) || e == LostInterrupted(1))
    && (status == Sending <==> e == LostFailed || (e.LostSending? && e.k > 1) || (e.LostInterrupted? && e.k > 1))
  }

  predicate Facts(d: Delivery)
  {
    var t := d.tally;
    && t.tried <= ATTEMPTS && t.through <= t.tried && t.through <= t.unmarked + 1 && t.unmarked <= t.lost
    && (d.phase.Some? ==> !t.killed && PhaseFacts(d.phase.value, t))
    && (Working(d) ==> t.ending == Going && (d.row.None? <==> d.phase.value == Claimed))
    && (d.row.Some? && Working(d) ==> RowFollows(d.phase.value, d.row.value.status))
    && (d.row.Some? && !Working(d) && t.lost == 0 ==> Final(d.row.value.status))
    && (d.row.Some? && d.row.value.status == Failed ==> t.tried == ATTEMPTS && t.through == t.unmarked)
    && (d.row.Some? && !Working(d) && !t.killed ==>
          t.through == t.unmarked + (if d.row.value.status == Sent then 1 else 0)
              && LeftWith(d.row.value.status, t.ending))
    && (d.row.Some? && d.row.value.status == Sent ==> t.through == t.unmarked + 1)
  }

  /** As long as no write is lost the row counts the attempts made, and the one being made. */
  predicate Counted(d: Delivery)
  {
    d.row.Some? && d.tally.lost == 0 && !d.tally.killed ==>
      d.row.value.attempts == d.tally.tried + if d.phase.Some? && d.phase.value.InSend? then 1 else 0
  }

  lemma MoveKeepsCount(d: Delivery, m: Move)
    requires Facts(d) && Counted(d) && d.phase.Some? && Possible(d.phase.value, m)
    ensures Counted(Moved(d, m))
  {
  }

  lemma StepKeepsCounts(w: World, s: Step)
    requires Inv(w) && Enabled(w, s)
    ensures forall id <- After(w, s).deliveries :: Counted(After(w, s).deliveries[id])
  {
    hide Facts, Retention, Moved;
    if s.Do? { MoveKeepsCount(w.deliveries[s.id], s.move); }
  }

  lemma MoveKeepsFacts(d: Delivery, m: Move)
    requires Facts(d) && d.phase.Some? && Possible(d.phase.value, m)
    ensures Facts(Moved(d, m))
  {
  }

  lemma DropKeepsFacts(d: Delivery)
    requires Facts(d) && d.row.Some? && Final(d.row.value.status)
    ensures Facts(WithoutRow(d))
  {
  }

  lemma ResetKeepsFacts(d: Delivery)
    requires Facts(d)
    ensures Facts(Reset(d)) && (d.row.Some? ==> Final(Reset(d).row.value.status))
  {
  }

  // ---------- every run ----------

  function Flying(w: World): set<Id> { set id | id in w.deliveries && w.deliveries[id].phase.Some? }

  predicate Inv(w: World)
  {
    w.held == |Flying(w)| <= SLOTS
    && forall id <- w.deliveries :: Facts(w.deliveries[id]) && Counted(w.deliveries[id])
  }

  lemma StepKeepsFacts(w: World, s: Step)
    requires Inv(w) && Enabled(w, s)
    ensures forall id <- After(w, s).deliveries :: Facts(After(w, s).deliveries[id])
  {
    hide Facts;
    match s
    case Claim(id) => assert Facts(After(w, s).deliveries[id]) by { FirstFacts(); }
    case Do(id, m, dropped) =>
      MoveKeepsFacts(w.deliveries[id], m);
      forall i | i in dropped ensures Facts(WithoutRow(w.deliveries[i])) { DropKeepsFacts(w.deliveries[i]); }
    case Stop =>
    case Restart =>
      forall i | i in w.deliveries ensures Facts(Reset(w.deliveries[i])) { ResetKeepsFacts(w.deliveries[i]); }
  }

  lemma FirstFacts()
    ensures Facts(Delivery(None, Some(Claimed), NO_TALLY))
  {
  }

  lemma StepKeepsHeld(w: World, s: Step)
    requires Inv(w) && Enabled(w, s)
    ensures After(w, s).held == |Flying(After(w, s))| <= SLOTS
  {
    hide Facts, Counted, Retention, Moved;
    var w' := After(w, s);
    match s
    case Claim(id) => assert Flying(w') == Flying(w) + {id};
    case Do(id, m, dropped) =>
      if w'.deliveries[id].phase.Some? {
        assert Flying(w') == Flying(w);
      } else {
        assert Flying(w') == Flying(w) - {id};
      }
    case Stop => assert Flying(w') == Flying(w);
    case Restart => assert Flying(w') == {};
  }

  const EMPTY: World := World(map[], 0, false)

  /** The world after some steps; one that cannot happen does nothing. */
  function Run(steps: seq<Step>): World
  {
    if steps == [] then EMPTY
    else
      var w, s := Run(steps[..|steps| - 1]), steps[|steps| - 1];
      if Enabled(w, s) then After(w, s) else w
  }

  lemma {:induction false} RunKeepsInv(steps: seq<Step>)
    ensures Inv(Run(steps))
  {
    if steps != [] {
      var w, s := Run(steps[..|steps| - 1]), steps[|steps| - 1];
      RunKeepsInv(steps[..|steps| - 1]);
      if Enabled(w, s) {
        StepKeepsHeld(w, s);
        StepKeepsFacts(w, s);
        StepKeepsCounts(w, s);
      }
    }
  }

  /** In every interleaving as many slots are held as deliveries are in flight, and never more than 32. */
  lemma HeldIsInFlight(steps: seq<Step>)
    ensures Run(steps).held == |Flying(Run(steps))| <= 32
  {
    RunKeepsInv(steps);
  }

  /**
   In every interleaving: at most three attempts; `failed` only after the third, none of the three having
   been taken for a success; and no more than one success beyond those whose `sent` could not be written.
   */
  lemma Attempts(steps: seq<Step>, id: Id)
    requires id in Run(steps).deliveries
    ensures var d := Run(steps).deliveries[id];
            && d.tally.tried <= 3 && d.tally.through <= 1 + d.tally.unmarked
            && (d.row.Some? && d.row.value.status == Failed ==>
                d.tally.tried == 3 && d.tally.through == d.tally.unmarked)
  {
    RunKeepsInv(steps);
  }

  /**
   With no write lost and no process killed, a worker that ends leaves the truth: sent iff it got through,
   and then once, and as many attempts as it made.
   */
  lemma EndsTruthfully(steps: seq<Step>, id: Id)
    requires id in Run(steps).deliveries && Run(steps).deliveries[id].phase.None? && Run(steps).deliveries[id].row.Some?
    requires Run(steps).deliveries[id].tally.lost == 0 && !Run(steps).deliveries[id].tally.killed
    ensures var d := Run(steps).deliveries[id];
            && d.row.value.status != Queued && d.row.value.status != Sending
            && d.tally.through == (if d.row.value.status == Sent then 1 else 0)
            && d.row.value.attempts == d.tally.tried
  {
    RunKeepsInv(steps);
  }

  lemma NoRowYet(d: Delivery)
    requires Facts(d) && d.phase == Some(Claimed)
    ensures d.row.None?
  {
  }

  function FinalRows(ds: map<Id, Delivery>): set<Id>
  {
    set id | id in ds && ds[id].row.Some? && (ds[id].row.value.status.Sent? || ds[id].row.value.status.Failed?
                                              || ds[id].row.value.status.Interrupted?)
  }

  /** Storing a delivery keeps 2000 of the final rows, or all of them when there are fewer, and every other row. */
  lemma RetentionKeeps(steps: seq<Step>, id: Id, dropped: set<Id>)
    requires Enabled(Run(steps), Do(id, Store(true), dropped))
    ensures var ds := Run(steps).deliveries;
            var after := After(Run(steps), Do(id, Store(true), dropped)).deliveries;
            && after.Keys == ds.Keys && id in after && after[id].row == Some(Row(Queued, 0))
            && |FinalRows(after)| == (if |FinalRows(ds)| > 2000 then 2000 else |FinalRows(ds)|)
            && FinalRows(after) <= FinalRows(ds)
            && forall i <- ds :: i != id && (i !in FinalRows(ds) || i in FinalRows(after)) ==> after[i].row == ds[i].row
  {
    var w := Run(steps);
    var after := After(w, Do(id, Store(true), dropped)).deliveries;
    RunKeepsInv(steps);
    NoRowYet(w.deliveries[id]);
    StoredRows(w, id, dropped);
    var ds := w.deliveries;
    assert FinalRows(ds) == set i | i in ds && ds[i].row.Some? && Final(ds[i].row.value.status);
    hide Facts, Counted, Run, After;
    FinalsAfter(ds, after, id, dropped);
  }

  lemma FinalsAfter(ds: map<Id, Delivery>, after: map<Id, Delivery>, id: Id, dropped: set<Id>)
    requires id in ds && ds[id].row.None? && after.Keys == ds.Keys && after[id].row == Some(Row(Queued, 0))
    requires dropped <= FinalRows(ds)
    requires forall i <- ds :: i != id ==> after[i].row == if i in dropped then None else ds[i].row
    ensures FinalRows(after) == FinalRows(ds) - dropped
  {
  }

  lemma StoredRows(w: World, id: Id, dropped: set<Id>)
    requires Enabled(w, Do(id, Store(true), dropped)) && w.deliveries[id].row.None?
    ensures var ds, after := w.deliveries, After(w, Do(id, Store(true), dropped)).deliveries;
            && after.Keys == ds.Keys && after[id].row == Some(Row(Queued, 0)) && id !in dropped
            && forall i <- ds :: i != id ==> after[i].row == if i in dropped then None else ds[i].row
  {
  }

  /** After the start of a process no row is queued or sending. */
  lemma NothingPendingAfterRestart(steps: seq<Step>, id: Id)
    requires id in Run(steps).deliveries && Run(steps).deliveries[id].row.Some?
    ensures var d := Run(steps + [Restart]).deliveries;
            id in d && d[id].row.Some? && d[id].row.value.status != Queued && d[id].row.value.status != Sending
    ensures !Run(steps + [Restart]).stopped && Run(steps + [Restart]).held == 0
  {
    assert (steps + [Restart])[..|steps|] == steps;
  }

  /** A process that is stopping begins no send: what is being sent then was being sent before. */
  lemma StoppedBeginsNothing(w: World, s: Step, id: Id)
    requires Enabled(w, s) && w.stopped && id in After(w, s).deliveries
    requires After(w, s).deliveries[id].phase.Some? && After(w, s).deliveries[id].phase.value.InSend?
    ensures id in w.deliveries && w.deliveries[id].phase.Some? && w.deliveries[id].phase.value.InSend?
  {
    hide Retention;
  }

  // ---------- every worker ends ----------

  function Rank(p: Phase): int
  {
    match p
    case Claimed => 20
    case Stored => 19
    case Trying(k) => 18 - 4 * k
    case InSend(k) => 17 - 4 * k
    case Accepted(k) => 16 - 4 * k
    case Caught(k) => 15 - 4 * k
    case Finished => 1
  }

  /** Each step of a delivery brings it nearer the release of its slot, which is never more than sixteen steps away. */
  lemma DeliveriesEnd(d: Delivery, m: Move)
    requires Facts(d) && d.phase.Some? && Possible(d.phase.value, m)
    ensures Moved(d, m).phase.None? || 0 < Rank(Moved(d, m).phase.value) < Rank(d.phase.value) <= 20
  {
    assert Facts(Moved(d, m)) by { MoveKeepsFacts(d, m); }
  }

  // ---------- what a caller might not expect, exactly ----------

  /** An ended delivery whose row is still there and whose process was not killed. */
  predicate Ended(d: Delivery) { d.phase.None? && d.row.Some? && !d.tally.killed }

  /** It got through more than once exactly when two `sent` writes were lost, or one was and another was not. */
  lemma SentAgainIff(steps: seq<Step>, id: Id)
    requires id in Run(steps).deliveries && Ended(Run(steps).deliveries[id])
    ensures var d := Run(steps).deliveries[id];
            d.tally.through >= 2 <==> d.tally.unmarked >= 2 || (d.tally.unmarked == 1 && d.row.value.status == Sent)
  {
    RunKeepsInv(steps);
  }

  /**
   Its row is left `queued` exactly when the pool refused it or the first write of its worker was lost, and
   `sending` exactly when the write of `failed` was lost or a later attempt could not write its beginning.
   */
  lemma LeftBehindIff(steps: seq<Step>, id: Id)
    requires id in Run(steps).deliveries && Ended(Run(steps).deliveries[id])
    ensures var d := Run(steps).deliveries[id];
            var e := d.tally.ending;
            && (d.row.value.status == Queued <==> e == Refused || e == LostSending(1) || e == LostInterrupted(1))
            && (d.row.value.status == Sending
                <==> e == LostFailed || (e.LostSending? && e.k > 1) || (e.LostInterrupted? && e.k > 1))
  {
    RunKeepsInv(steps);
  }

  const NEW := Delivery(None, Some(Claimed), NO_TALLY)

  /** A delivery after some moves of its own; a move that cannot come does nothing. */
  function MovedAll(moves: seq<Move>): Delivery
  {
    if moves == [] then NEW
    else
      var d, m := MovedAll(moves[..|moves| - 1]), moves[|moves| - 1];
      if d.phase.Some? && Possible(d.phase.value, m) then Moved(d, m) else d
  }

  function Alone(id: Id, moves: seq<Move>): seq<Step>
  {
    if moves == [] then [Claim(id)] else Alone(id, moves[..|moves| - 1]) + [Do(id, moves[|moves| - 1], {})]
  }

  lemma {:induction false} FactsOfMoves(moves: seq<Move>)
    ensures Facts(MovedAll(moves))
    ensures MovedAll(moves).phase == Some(Claimed) ==> MovedAll(moves).row.None?
  {
    if moves != [] {
      var d, m := MovedAll(moves[..|moves| - 1]), moves[|moves| - 1];
      FactsOfMoves(moves[..|moves| - 1]);
      if d.phase.Some? && Possible(d.phase.value, m) { MoveKeepsFacts(d, m); }
    }
  }

  /** A run in which nothing else happens and nobody stops. */
  lemma {:induction false} RunAlone(id: Id, moves: seq<Move>)
    requires forall m <- moves :: !m.Begin? || !m.stopped
    ensures var d := MovedAll(moves);
            Run(Alone(id, moves)) == World(map[id := d], if d.phase.Some? then 1 else 0, false)
  {
    hide Facts, Moved, Retention;
    if moves == [] {
      assert [Claim(id)][..0] == [];
    } else {
      var init, m := moves[..|moves| - 1], moves[|moves| - 1];
      RunAlone(id, init);
      FactsOfMoves(init);
      AloneStep(id, MovedAll(init), m);
      assert Alone(id, moves)[..|Alone(id, init)|] == Alone(id, init);
    }
  }

  lemma AloneStep(id: Id, d: Delivery, m: Move)
    requires !m.Begin? || !m.stopped
    requires m.Store? && d.phase.Some? && Possible(d.phase.value, m) ==> d.row.None?
    ensures var w := World(map[id := d], if d.phase.Some? then 1 else 0, false);
            var e := if d.phase.Some? && Possible(d.phase.value, m) then Moved(d, m) else d;
            (if Enabled(w, Do(id, m, {})) then After(w, Do(id, m, {})) else w)
              == World(map[id := e], if e.phase.Some? then 1 else 0, false)
  {
    var w := World(map[id := d], if d.phase.Some? then 1 else 0, false);
    if d.phase.Some? && Possible(d.phase.value, m) {
      assert d.row.None? ==> (set i | i in w.deliveries && w.deliveries[i].row.Some?
                              && Final(w.deliveries[i].row.value.status)) == {};
      assert Enabled(w, Do(id, m, {}));
      assert After(w, Do(id, m, {})).deliveries == map[id := Moved(d, m)];
    }
  }

  const FIRST_TRY: seq<Move> := [Store(true), HandOver(true), Begin(false, true), Send(true), MarkSent(false)]
  const SECOND_TRY: seq<Move> := [Recover(true), Begin(false, true), Send(true), MarkSent(true), Release]

  lemma OneMove(moves: seq<Move>, m: Move, d: Delivery)
    requires MovedAll(moves) == d
    ensures MovedAll(moves + [m]) == if d.phase.Some? && Possible(d.phase.value, m) then Moved(d, m) else d
  {
    assert (moves + [m])[..|moves|] == moves;
  }

  lemma AfterFirstTry()
    ensures MovedAll(FIRST_TRY)
         == Delivery(Some(Row(Sending, 1)), Some(Caught(1)), Tally(1, 1, 1, 1, false, Going))
  {
    var none: seq<Move> := [];
    assert MovedAll(none) == NEW;
    hide MovedAll;
    var m := FIRST_TRY;
    OneMove(none, m[0], NEW);
    var d1 := Delivery(Some(Row(Queued, 0)), Some(Stored), NO_TALLY);
    OneMove(none + [m[0]], m[1], d1);
    var d2 := d1.(phase := Some(Trying(1)));
    OneMove(none + [m[0]] + [m[1]], m[2], d2);
    var d3 := d2.(row := Some(Row(Sending, 1)), phase := Some(InSend(1)));
    OneMove(none + [m[0]] + [m[1]] + [m[2]], m[3], d3);
    var d4 := d3.(phase := Some(Accepted(1)), tally := Tally(1, 1, 0, 0, false, Going));
    OneMove(none + [m[0]] + [m[1]] + [m[2]] + [m[3]], m[4], d4);
    assert none + [m[0]] + [m[1]] + [m[2]] + [m[3]] + [m[4]] == m;
  }

  lemma AfterSecondTry()
    ensures MovedAll(FIRST_TRY + SECOND_TRY) == Delivery(Some(Row(Sent, 2)), None, Tally(2, 2, 1, 1, false, Written))
  {
    hide MovedAll;
    var f, m := FIRST_TRY, SECOND_TRY;
    var d0 := Delivery(Some(Row(Sending, 1)), Some(Caught(1)), Tally(1, 1, 1, 1, false, Going));
    AfterFirstTry();
    OneMove(f, m[0], d0);
    var d1 := d0.(phase := Some(Trying(2)));
    OneMove(f + [m[0]], m[1], d1);
    var d2 := d1.(row := Some(Row(Sending, 2)), phase := Some(InSend(2)));
    OneMove(f + [m[0]] + [m[1]], m[2], d2);
    var d3 := d2.(phase := Some(Accepted(2)), tally := Tally(2, 2, 1, 1, false, Going));
    OneMove(f + [m[0]] + [m[1]] + [m[2]], m[3], d3);
    var d4 := Delivery(Some(Row(Sent, 2)), Some(Finished), Tally(2, 2, 1, 1, false, Written));
    OneMove(f + [m[0]] + [m[1]] + [m[2]] + [m[3]], m[4], d4);
    assert f + [m[0]] + [m[1]] + [m[2]] + [m[3]] + [m[4]] == f + m;
  }

  /** It happens: a message is sent, its `sent` is not written, and it is sent again. */
  lemma LostMarkSendsAgain(id: Id)
    ensures var w := Run(Alone(id, FIRST_TRY + SECOND_TRY));
            id in w.deliveries && Ended(w.deliveries[id]) && w.deliveries[id].row == Some(Row(Sent, 2))
            && w.deliveries[id].tally.through == 2 && w.deliveries[id].tally.unmarked == 1 && w.held == 0
  {
    RunAlone(id, FIRST_TRY + SECOND_TRY);
    AfterSecondTry();
  }

  /** It happens: the worker pool refuses a delivery, which gives its slot back and stays `queued`. */
  lemma RefusedStaysQueued(id: Id)
    ensures var w := Run(Alone(id, [Store(true), HandOver(false)]));
            id in w.deliveries && Ended(w.deliveries[id]) && w.deliveries[id].row == Some(Row(Queued, 0))
            && w.deliveries[id].tally.ending == Refused && w.held == 0
  {
    var moves := [Store(true), HandOver(false)];
    RunAlone(id, moves);
    var none: seq<Move> := [];
    assert MovedAll(none) == NEW;
    OneMove(none, moves[0], NEW);
    OneMove(none + [moves[0]], moves[1], Moved(NEW, Store(true)));
    assert none + [moves[0]] + [moves[1]] == moves;
  }

  // ---------- the code ----------

  class Notifications {
    var rows: map<Id, Row>
    var held: nat

    /** _status */
    method SetStatus(id: Id, status: Status, attempts: nat, writes: bool) returns (ok: bool)
      modifies this`rows
      ensures ok == writes
      ensures rows == if writes && id in old(rows) then old(rows)[id := Row(status, attempts)] else old(rows)
    {
      if writes && id in rows { rows := rows[id := Row(status, attempts)]; }
      return writes;
    }

    /** One round of the loop: whether the send gets through, and whether each of the three writes does. */
    method Attempt(id: Id, k: nat, send: bool, begins: bool, marks: bool, fails: bool) returns (over: bool)
      requires id in rows
      modifies this`rows
      ensures over <==> !begins || (send && marks)
      ensures rows == if !begins then old(rows)
                      else old(rows)[id := if send && marks then Row(Sent, k)
                                           else if k == ATTEMPTS && fails then Row(Failed, k) else Row(Sending, k)]
    {
      var ok := SetStatus(id, Sending, k, begins);
      if !ok { return true; }
      if send {
        ok := SetStatus(id, Sent, k, marks);
        if ok { return true; }
      }
      if k == ATTEMPTS { ok := SetStatus(id, Failed, k, fails); }
      return false;
    }

    /**
     _deliver on its own: the n-th answer of each oracle says whether the process was stopping, whether
     a write succeeded, and whether a send did.
     */
    method Deliver(id: Id, stops: nat -> bool, writes: nat -> bool, sends: nat -> bool)
        returns (tried: nat, through: nat)
      requires held > 0 && id in rows && rows[id] == Row(Queued, 0)
      modifies this
      ensures held == old(held) - 1 && rows.Keys == old(rows.Keys)
      ensures forall other <- rows :: other != id ==> rows[other] == old(rows)[other]
      ensures through <= tried <= ATTEMPTS
      ensures rows[id].status == Failed ==> tried == ATTEMPTS
      ensures rows[id].status == Sent ==> through >= 1 && sends(tried - 1)
      ensures Always(writes) ==> Truthful(rows[id], tried, through, stops, sends)
    {
      tried, through := 0, 0;
      var n := 0;
      while tried < ATTEMPTS
        invariant tried <= ATTEMPTS && through <= tried && held == old(held) && rows.Keys == old(rows.Keys)
        invariant forall other <- rows :: other != id ==> rows[other] == old(rows)[other]
        invariant rows[id].status == Failed ==> tried == ATTEMPTS
        invariant rows[id].status != Sent && rows[id].status != Interrupted
        invariant Always(writes) ==>
                  through == 0 && NoneOf(sends, tried) && (tried == ATTEMPTS ==> rows[id] == Row(Failed, ATTEMPTS))
      {
        if stops(tried) {
          var _ := SetStatus(id, Interrupted, tried, writes(n));
          break;
        }
        var over := Attempt(id, tried + 1, sends(tried), writes(n), writes(n + 1), writes(n + 2));
        if !writes(n) { break; }
        tried := tried + 1;
        if sends(tried - 1) { through := through + 1; }
        if over { break; }
        n := n + 3;
      }
      held := held - 1;
    }
  }

  ghost predicate Always(writes: nat -> bool) { forall n: nat :: writes(n) }

  predicate NoneOf(sends: nat -> bool, n: nat) { forall i: nat :: i < n ==> !sends(i) }

  /** A row that says what became of a delivery none of whose writes was lost. */
  predicate Truthful(row: Row, tried: nat, through: nat, stops: nat -> bool, sends: nat -> bool)
  {
    row.attempts == tried &&
    match row.status
    case Sent => tried > 0 && through == 1 && NoneOf(sends, tried - 1) && sends(tried - 1)
    case Failed => tried == ATTEMPTS && through == 0 && NoneOf(sends, tried)
    case Interrupted => tried < ATTEMPTS && through == 0 && NoneOf(sends, tried) && stops(tried)
    case _ => false
  }
}
