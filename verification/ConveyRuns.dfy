/** Runs of the workshop, from its construction on, that end where one would not expect. */
module ConveyRuns {
  import opened Basics
  import opened ConveyUnits
  import opened ConveyFloor
  import opened ConveyClients
  import opened ConveyWorkshop

  const NO_REACTION := Reaction([], false, 0, [])

  function NewUnit(owner: TransId, autoDest: bool, dest: nat): Unit {
    Unit(0, autoDest, 5, dest, Wait, true, owner)
  }

  function NewTrans(units: seq<Unit>): Trans {
    Trans(NotBegin, units, |units|, 0, None, [])
  }

  function Four(x: Worker): seq<Worker> {
    [x, x, x, x]
  }

  lemma {:induction false} FourTold(x: Worker, word: nat)
    ensures Messaged(Four(x), word) == Four(x.(inbox := x.inbox + [word]))
  {
    MessagedAt(Four(x), word);
  }

  lemma {:induction false} IdleFour()
    ensures seq(CONCURRENCY, _ => IDLE_WORKER) == Four(IDLE_WORKER)
  {
  }

  /** Nothing is done yet, and a request finds the first slot. */
  lemma {:induction false} FirstRequest(x: Worker, units: seq<Unit>, c: TransId)
    requires 1 <= |units| <= 2
    ensures TableAfterAttach([], c, |units|) == [Slot(Some(c), |units|, c)] && HasRoom([]) && FreeSlot([]) == 0
    ensures FloorAfterAttach(Floor([], Four(x), []), [], units, []) ==
      Floor(Tagged(units, 0), Four(x.(inbox := x.inbox + [Word(NEW_ITEM, 0)])), [])
  {
    var f := Floor([], Four(x), []);
    var first := f.(raw := [units[0].(tag := 0)]);
    assert AfterMoves(first, []) == first;
    assert f.raw + [units[0].(tag := 0)] == first.raw;
    if |units| == 1 {
      assert units[1..] == [];
      assert Pushed(f, units, 0, []) == first;
    } else {
      var both := first.(raw := first.raw + [units[1].(tag := 0)]);
      assert units[1..][0] == units[1] && units[1..][1..] == [];
      assert AfterMoves(both, []) == both;
      assert Pushed(first, units[1..], 0, []) == both;
      assert Tagged(units[1..], 0) == [units[1].(tag := 0)];
    }
    hide Word;
    FourTold(x, Word(NEW_ITEM, 0));
  }

  /** The moves of a list, one after the other. */
  lemma {:induction false} TwoMoves(f: Floor, a: Move, b: Move)
    ensures AfterMoves(f, [a, b]) == AfterMove(AfterMove(f, a), b)
  {
    hide AfterMove;
    assert [a, b][1..] == [b];
    OneMove(AfterMove(f, a), b);
  }

  lemma {:induction false} OneMove(f: Floor, a: Move)
    ensures AfterMoves(f, [a]) == AfterMove(f, a)
  {
    assert [a][1..] == [];
    hide AfterMove;
  }

  lemma {:induction false} FourMoves(f: Floor, a: Move, b: Move, c: Move, d: Move)
    ensures AfterMoves(f, [a, b, c, d]) == AfterMove(AfterMove(AfterMove(AfterMove(f, a), b), c), d)
  {
    assert [a, b, c, d][1..] == [b, c, d];
    assert [b, c, d][1..] == [c, d];
    hide AfterMove;
    TwoMoves(AfterMove(AfterMove(f, a), b), c, d);
  }

  // ------------------------------------------- a cancellation that comes late

  lemma {:induction false} CancelledFloor(u: Unit, x: Worker)
    requires u.tag == 0
    ensures SlotOf([Slot(Some(1), 1, 1)], Some(1)) == 0 && CountTag([u], 0) == 1
    ensures CancelTable([Slot(Some(1), 1, 1)], 0, 1) == []
    ensures FloorAfterCancel(Floor([u], Four(x), []), 0, 1, [[]]) ==
      Floor([], Four(x.(inbox := x.inbox + [Word(CANCEL, 0)])), [])
  {
    assert CountTag([u], 0) == 1 + CountTag([u][1..], 0) && [u][1..] == [];
    var left := ForgetClient([Slot(Some(1), 1, 1)], 0, 0);
    assert left[..|left| - 1] == [] && Trim(left) == [];
    var f := Floor([], Four(x.(inbox := x.inbox + [Word(CANCEL, 0)])), []);
    var none: seq<seq<Move>> := [[]];
    assert none[1..] == [] && AfterMoves(f, []) == f;
    assert Kept(f, [u], 0, none) == f;
    FourTold(x, Word(CANCEL, 0));
  }

  /** Worker 0 starts on the unit and finds the order to cancel its tag. */
  lemma {:induction false} StoppedByOldOrder(u: Unit)
    requires u.tag == 0
    ensures var x := Worker(Waiting, None, [Word(NEW_ITEM, 0), Word(CANCEL, 0), Word(NEW_ITEM, 0)]);
      var f := AfterMoves(Floor([u], Four(x), []), [Read(0), Take(0)]);
      AfterMoves(f, [Look(0)]).products == [Stopped(u.(state := OnGoing), Cancelled)]
  {
    WordParts(NEW_ITEM, 0);
    WordParts(CANCEL, 0);
    hide Word;
    var x := Worker(Waiting, None, [Word(NEW_ITEM, 0), Word(CANCEL, 0), Word(NEW_ITEM, 0)]);
    var f := Floor([u], Four(x), []);
    TwoMoves(f, Read(0), Take(0));
    var y := Worker(Looping, None, [Word(CANCEL, 0), Word(NEW_ITEM, 0)]);
    assert AfterRead(x) == y;
    assert AfterMove(f, Read(0)) == f.(workers := Four(x)[0 := y]);
    var g := AfterMove(AfterMove(f, Read(0)), Take(0));
    assert g.workers[0] == y.(held := Some(u.(state := OnGoing))) && g.products == [];
    assert Judge(u.(state := OnGoing), Word(CANCEL, 0)) == StopIn(Cancelled);
    OneMove(g, Look(0));
  }

  /** A new workshop, of whose transactions one is executed. */
  method Started(waiting: map<TransId, Trans>, units: seq<Unit>) returns (ws: ConveyWorkshop)
    requires AllAccounts(waiting, None) && (forall c <- waiting :: waiting[c].state.NotBegin?)
    requires 1 in waiting && waiting[1] == NewTrans(units) && 1 <= |units| <= 2
    ensures fresh(ws) && ws.Valid() && ws.table == [Slot(Some(1), |units|, 1)]
    ensures ws.View() == Floor(Tagged(units, 0), Four(Worker(Waiting, None, [Word(NEW_ITEM, 0)])), [])
    ensures ws.trans == waiting[1 := NewTrans(units).(state := Executing, slot := Some(0))]
  {
    hide Running, Sound, Evolves, TableAfterAttach, FloorAfterAttach, AllAccounts, Word, Tagged;
    ws := new ConveyWorkshop(waiting);
    IdleFour();
    FirstRequest(IDLE_WORKER, units, 1);
    var _ := ws.Execute(1, [], multiset{}, -1, None);
    assert IDLE_WORKER.inbox + [Word(NEW_ITEM, 0)] == [Word(NEW_ITEM, 0)];
  }

  /** Of two transactions, the first is executed and cancelled before any worker steps. */
  method CancelledBeforeWork() returns (ws: ConveyWorkshop)
    ensures fresh(ws) && ws.Valid() && ws.table == []
    ensures ws.View() == Floor([], Four(Worker(Waiting, None, [Word(NEW_ITEM, 0), Word(CANCEL, 0)])), [])
    ensures 2 in ws.trans && ws.trans[2] == NewTrans([NewUnit(2, false, 7)])
  {
    hide Running, Sound, CancelTable, FloorAfterCancel, SlotOf, CountTag, Word;
    var u1, u2 := NewUnit(1, false, 7), NewUnit(2, false, 7);
    var told := Worker(Waiting, None, [Word(NEW_ITEM, 0)]);
    ws := Started(map[1 := NewTrans([u1]), 2 := NewTrans([u2])], [u1]);
    assert Tagged([u1], 0) == [u1];
    CancelledFloor(u1, told);
    ws.Cancel(1, [[]]);
    assert told.inbox + [Word(CANCEL, 0)] == [Word(NEW_ITEM, 0), Word(CANCEL, 0)];
  }

  /** The second is given the tag of the first. */
  method TagIsReused() returns (ws: ConveyWorkshop)
    ensures fresh(ws) && ws.Valid() && 2 in ws.trans
    ensures ws.trans[2].state.Executing? && ws.trans[2].itemNum == 1 && ws.trans[2].failNum == 0 && ws.trans[2].handed == []
    ensures var x := Worker(Waiting, None, [Word(NEW_ITEM, 0), Word(CANCEL, 0), Word(NEW_ITEM, 0)]);
      ws.View() == Floor([NewUnit(2, false, 7)], Four(x), [])
  {
    hide Running, Sound, Evolves, TableAfterAttach, FloorAfterAttach, Word;
    ws := CancelledBeforeWork();
    var u, told := NewUnit(2, false, 7), Worker(Waiting, None, [Word(NEW_ITEM, 0), Word(CANCEL, 0)]);
    FirstRequest(told, [u], 2);
    var _ := ws.Execute(2, [], multiset{}, -1, None);
    assert Tagged([u], 0) == [u];
    assert told.inbox + [Word(NEW_ITEM, 0)] == [Word(NEW_ITEM, 0), Word(CANCEL, 0), Word(NEW_ITEM, 0)];
  }

  lemma {:induction false} LastUnitCancelled(before: map<TransId, Trans>, after: map<TransId, Trans>, item: Unit)
    requires HandedBack(before, after, item, NO_REACTION) && item.owner == 2 && item.state == Cancelled
    requires 2 in before && before[2].state.Executing? && before[2].itemNum == 1
    requires before[2].failNum == 0 && before[2].handed == []
    ensures 2 in after && after[2].handed == [HandBack(Cancelled, false)] && after[2].state == Finished(true)
  {
  }

  /** A transaction is cancelled before any worker has read a message. Its tag is given to
      the next one, whose unit then meets the order to cancel: the transaction reports
      success although its only unit was not conveyed. */
  method StaleCancelSucceeds() returns (told: seq<HandBack>, state: TransState)
    ensures told == [HandBack(Cancelled, false)] && state == Finished(true)
  {
    hide Running, Sound, AfterMoves, HandedBack, Word;
    var ws := TagIsReused();
    StoppedByOldOrder(NewUnit(2, false, 7));
    ws.LetWork([Read(0), Take(0)]);
    ws.LetWork([Look(0)]);
    ghost var before, item := ws.trans, ws.products[0];
    assert ws.Live() + multiset{} == ws.Live();
    ws.NextProduct(NO_REACTION);
    LastUnitCancelled(before, ws.trans, item);
    told, state := ws.trans[2].handed, ws.trans[2].state;
  }

  // ------------------------------------- a callback that changes the storage

  /** Worker 0 holds the first unit, whose medium has vanished. */
  lemma {:induction false} FirstLosesMedium(a: Unit, b: Unit)
    requires a.tag == b.tag == 0 && a.autoDest && a.src == 5 && a.dest == 7
    ensures var x := Worker(Waiting, None, [Word(NEW_ITEM, 0)]);
      var held := AfterMoves(Floor([a, b], Four(x), []), [Read(0), Take(0)]);
      && held.raw == [b] && held.products == []
      && AfterMoves(AllGoneBack(Notified(held.(raw := []), Word(VANISH, 7)), [b], [NO_REACTION]), [Look(0)]) ==
         Floor([b], Four(x.(inbox := [Word(NEW_ITEM, 0), Word(VANISH, 7)]))[0 := Worker(Looping, None, [])],
               [Stopped(a.(state := OnGoing), CommonDestVanish)])
  {
    WordParts(NEW_ITEM, 0);
    WordParts(VANISH, 7);
    hide Word;
    var x := Worker(Waiting, None, [Word(NEW_ITEM, 0)]);
    var f := Floor([a, b], Four(x), []);
    TwoMoves(f, Read(0), Take(0));
    var looping := Worker(Looping, None, []);
    assert AfterRead(x) == looping;
    assert AfterMove(f, Read(0)) == f.(workers := Four(x)[0 := looping]);
    var h := looping.(held := Some(a.(state := OnGoing)));
    var held := f.(raw := [b], workers := Four(x)[0 := h]);
    assert f.raw[1..] == [b];
    assert AfterMove(AfterMove(f, Read(0)), Take(0)) == held;
    Vanished(held, h, x, b);
    var y := x.(inbox := [Word(NEW_ITEM, 0), Word(VANISH, 7)]);
    var g := held.(workers := Four(y)[0 := h.(inbox := [Word(VANISH, 7)])]);
    assert Judge(a.(state := OnGoing), Word(VANISH, 7)) == StopIn(CommonDestVanish);
    OneMove(g, Look(0));
    assert [Word(VANISH, 7)][1..] == [];
    assert AfterLook(g, 0).workers == Four(y)[0 := looping];
  }

  /** The workers are told that the medium vanished, and the raw unit goes back. */
  lemma {:induction false} Vanished(held: Floor, h: Worker, x: Worker, b: Unit)
    requires held.workers == Four(x)[0 := h] && held.raw == [b] && held.products == []
    requires h.inbox == [] && x.inbox == [Word(NEW_ITEM, 0)]
    ensures var y := x.(inbox := [Word(NEW_ITEM, 0), Word(VANISH, 7)]);
      AllGoneBack(Notified(held.(raw := []), Word(VANISH, 7)), [b], [NO_REACTION]) ==
      held.(workers := Four(y)[0 := h.(inbox := [Word(VANISH, 7)])])
  {
    var y := x.(inbox := [Word(NEW_ITEM, 0), Word(VANISH, 7)]);
    var f := Notified(held.(raw := []), Word(VANISH, 7));
    hide Word;
    MessagedAt(held.workers, Word(VANISH, 7));
    assert h.inbox + [Word(VANISH, 7)] == [Word(VANISH, 7)] && x.inbox + [Word(VANISH, 7)] == y.inbox;
    assert f.workers == Four(y)[0 := h.(inbox := [Word(VANISH, 7)])];
    assert AfterMoves(f, []) == f && [b][1..] == [] && [NO_REACTION][1..] == [];
    assert f.raw + [b] == [b];
  }

  lemma {:induction false} OtherIsLost(b: Unit)
    requires b.autoDest && b.owner == 1 && b.src == 5 && b.dest == 8
    ensures Untouched([b], Inactive(7)) && LostOf([b], CurrentChanged(9), [NO_REACTION], 1, 1) == 1
  {
    assert LostOf([b], CurrentChanged(9), [NO_REACTION], 1, 0) == 0;
  }

  /** The first of two units comes back because its medium vanished. */
  method FirstComesBack() returns (ws: ConveyWorkshop)
    ensures fresh(ws) && ws.Valid() && ws.table == [Slot(Some(1), 2, 1)]
    ensures ws.raw == [NewUnit(1, true, 8)]
    ensures ws.products == [Stopped(NewUnit(1, true, 7).(state := OnGoing), CommonDestVanish)]
    ensures 1 in ws.trans && ws.trans[1].state.Executing?
  {
    hide Running, Sound, AfterMoves, Word, Evolves, Answered, Untouched, AllGoneBack, Notified, LostOf;
    var a, b := NewUnit(1, true, 7), NewUnit(1, true, 8);
    ws := Started(map[1 := NewTrans([a, b])], [a, b]);
    assert Tagged([a, b], 0) == [a, b] by {
      assert [a, b][1..] == [b];
      assert Tagged([b], 0) == [b];
    }
    FirstLosesMedium(a, b);
    OtherIsLost(b);
    ws.LetWork([Read(0), Take(0)]);
    assert ws.Live() + multiset{} == ws.Live();
    ws.MediaInactive(7, [NO_REACTION]);
    ws.LetWork([Look(0)]);
  }

  /** A transaction has two units. The medium of one vanishes while a worker has it; when it
      is handed back, its callback makes another medium current, and the other unit comes
      back for good: the slot of the callback is lost. */
  method NestedChangeLosesSlot() returns (kept: bool)
    ensures !kept
  {
    hide Running, Sound, Evolves, Answered, Answers, LostOf, Floor.AllMarks;
    var ws := FirstComesBack();
    OtherIsLost(NewUnit(1, true, 8));
    ghost var live := ws.Live();
    assert live + multiset{} == live;
    var item := ws.PopProduct();
    assert item.state == CommonDestVanish && item.autoDest && item.owner == 1 && item.tag == 0;
    kept := ws.ItemDoneChanging(item, NO_REACTION, 9, [NO_REACTION]);
  }

  // -------------------------------------------- raw material that is overlooked

  /** All workers read of new material while the main thread has it, and wait again; then
      they read of the event. */
  lemma {:induction false} AllLookAway(u: Unit)
    ensures var x := Worker(Waiting, None, [Word(NEW_ITEM, 0)]);
      var reading := AfterMoves(Floor([u], Four(x), []), [Read(0), Read(1), Read(2), Read(3)]);
      var taken := Notified(reading.(raw := []), Word(VANISH, 9));
      var r := Reaction([Take(0), Take(1), Take(2), Take(3)], false, 0, []);
      && reading.raw == [u] && reading.products == []
      && AfterMoves(AllGoneBack(taken, [u], [r]), [Read(0), Read(1), Read(2), Read(3)]) ==
         Floor([u], Four(Worker(Waiting, None, [])), [])
  {
    WordParts(NEW_ITEM, 0);
    WordParts(VANISH, 9);
    hide Word;
    var x, y := Worker(Waiting, None, [Word(NEW_ITEM, 0)]), Worker(Looping, None, []);
    assert AfterRead(x) == y;
    var f := Floor([u], Four(x), []);
    FourSteps(f, x, y, Read(0), Read(1), Read(2), Read(3));
    var reading := Floor([u], Four(y), []);
    FourTold(y, Word(VANISH, 9));
    assert y.inbox + [Word(VANISH, 9)] == [Word(VANISH, 9)];
    var z := y.(inbox := [Word(VANISH, 9)]);
    var taken := Floor([], Four(z), []);
    var w := z.(mode := Waiting);
    FourSteps(taken, z, w, Take(0), Take(1), Take(2), Take(3));
    var r := Reaction([Take(0), Take(1), Take(2), Take(3)], false, 0, []);
    assert [u][1..] == [] && [r][1..] == [] && [] + [u] == [u];
    assert AllGoneBack(taken, [u], [r]) == Floor([u], Four(w), []);
    assert AfterRead(w) == Worker(Waiting, None, []);
    FourSteps(Floor([u], Four(w), []), w, Worker(Waiting, None, []), Read(0), Read(1), Read(2), Read(3));
  }

  /** Each of the workers takes the same step. */
  lemma {:induction false} FourSteps(f: Floor, x: Worker, y: Worker, a: Move, b: Move, c: Move, d: Move)
    requires f.workers == Four(x) && a.w == 0 && b.w == 1 && c.w == 2 && d.w == 3
    requires || (x.mode.Waiting? && x.inbox != [] && y == AfterRead(x) && a.Read? && b.Read? && c.Read? && d.Read?)
             || (x.mode.Looping? && x.held.None? && f.raw == [] && y == x.(mode := Waiting)
                 && a.Take? && b.Take? && c.Take? && d.Take?)
    ensures AfterMoves(f, [a, b, c, d]) == f.(workers := Four(y))
  {
    hide AfterRead;
    FourMoves(f, a, b, c, d);
    var f1 := f.(workers := [y, x, x, x]);
    var f2 := f.(workers := [y, y, x, x]);
    var f3 := f.(workers := [y, y, y, x]);
    assert AfterMove(f, a) == f1;
    assert AfterMove(f1, b) == f2;
    assert AfterMove(f2, c) == f3;
    assert AfterMove(f3, d) == f.(workers := Four(y));
  }

  lemma {:induction false} NothingMoves(f: Floor)
    requires f.workers == Four(Worker(Waiting, None, []))
    ensures forall m :: AfterMove(f, m) == f
  {
  }

  /** A unit is raw, no worker can take a step, and nobody will be told: the unit waits until
      somebody makes another request. */
  method RawUnitIsOverlooked() returns (raw: seq<Unit>, workers: seq<Worker>, products: seq<Unit>)
    ensures raw != [] && forall m :: AfterMove(Floor(raw, workers, products), m) == Floor(raw, workers, products)
  {
    hide Running, Sound, AfterMoves, Word, Evolves, Answered, Untouched, AllGoneBack, Notified;
    var u := NewUnit(1, false, 7);
    var steps := [Read(0), Read(1), Read(2), Read(3)];
    var ws := Started(map[1 := NewTrans([u])], [u]);
    assert Tagged([u], 0) == [u];
    AllLookAway(u);
    NotConcerned(u);
    ws.LetWork(steps);
    assert ws.Live() + multiset{} == ws.Live();
    ws.MediaInactive(9, [Reaction([Take(0), Take(1), Take(2), Take(3)], false, 0, [])]);
    ws.LetWork(steps);
    raw, workers, products := ws.raw, ws.workers, ws.products;
    NothingMoves(ws.View());
  }

  lemma {:induction false} NotConcerned(u: Unit)
    requires u.src == 5 && u.dest == 7
    ensures Untouched([u], Inactive(9))
  {
  }

  // ------------------------------------------------------------ a full table

  predicate AllBusy(table: seq<Slot>) {
    forall t :: 0 <= t < |table| ==> table[t].num > 0
  }

  lemma {:induction false} BusyTableGrows(table: seq<Slot>, c: TransId)
    requires AllBusy(table)
    ensures HasRoom(table) <==> |table| < MAX_SLOTS
    ensures |table| < MAX_SLOTS ==> TableAfterAttach(table, c, 1) == table + [Slot(Some(c), 1, c)]
    ensures |table| < MAX_SLOTS ==> AllBusy(TableAfterAttach(table, c, 1))
  {
    assert FreeSlot(table) == |table|;
  }

  function Small(id: TransId): Trans {
    NewTrans([NewUnit(id, false, 7)])
  }

  /** Transactions from here on have not begun. */
  predicate Rest(trans: map<TransId, Trans>, id: nat) {
    forall c :: id <= c <= MAX_SLOTS ==> c in trans && trans[c] == Small(c)
  }

  lemma {:induction false} RestWithout(trans: map<TransId, Trans>, id: nat, t: Trans)
    requires Rest(trans, id)
    ensures Rest(trans[id := t], id + 1)
  {
  }

  /** The next transaction takes a slot of its own. */
  method TakeSlot(ws: ConveyWorkshop, id: nat)
    requires ws.Valid() && |ws.table| == id < MAX_SLOTS && AllBusy(ws.table) && Rest(ws.trans, id)
    modifies ws
    ensures ws.Valid() && |ws.table| == id + 1 && AllBusy(ws.table) && Rest(ws.trans, id + 1)
  {
    assert id in ws.trans && ws.trans[id] == Small(id);
    hide Running, Sound, Evolves, AllBusy, Rest, TableAfterAttach, FloorAfterAttach, GivesLate, HasRoom;
    BusyTableGrows(ws.table, id);
    ghost var before := ws.trans;
    var _ := ws.Execute(id, [], multiset{}, -1, None);
    RestWithout(before, id, ws.trans[id]);
  }

  /** With 255 busy slots the next transaction executes without a slot, and so until it is
      cancelled. */
  method NoRoomLeft() returns (last: Trans)
    ensures Stuck(last)
  {
    var waiting := map id: nat | 0 <= id <= MAX_SLOTS :: Small(id);
    assert AllAccounts(waiting, None) && Rest(waiting, 0);
    hide Running, Sound, Evolves, AllBusy, AllAccounts, TableAfterAttach, FloorAfterAttach, GivesLate, HasRoom;
    var ws := new ConveyWorkshop(waiting);
    assert AllBusy([]) by {
      EmptyIsBusy();
    }
    for id := 0 to MAX_SLOTS
      invariant ws.Valid() && fresh(ws) && |ws.table| == id && AllBusy(ws.table) && Rest(ws.trans, id)
    {
      TakeSlot(ws, id);
    }
    BusyTableGrows(ws.table, MAX_SLOTS);
    assert MAX_SLOTS in ws.trans && ws.trans[MAX_SLOTS] == Small(MAX_SLOTS);
    var _ := ws.Execute(MAX_SLOTS, [], multiset{}, -1, None);
    last := ws.trans[MAX_SLOTS];
  }

  lemma {:induction false} EmptyIsBusy()
    ensures AllBusy([])
  {
  }
}
