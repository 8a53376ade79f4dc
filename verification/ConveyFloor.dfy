/** The floor of the workshop: four workers, each with a queue of messages, between the queue
    of raw units and that of products. What the workers do between two steps of the main
    thread, and in which order, is an input. */
module ConveyFloor {
  import opened Basics
  import opened ConveyUnits

  type TransId = nat

  const CONCURRENCY := 4

  /** A medium's priority: its type, and its rank among those of the type. */
  type Priority = p: int | 0 <= p < 0x1_0000

  // ----------------------------------------------------------- counting units

  /** What tells whose unit it is: its tag, and for the proofs its owner. */
  datatype Mark = Mark(tag: Tag, owner: TransId)

  function MarkOf(u: Unit): Mark {
    Mark(u.tag, u.owner)
  }

  function Marks(units: seq<Unit>): multiset<Mark> {
    if units == [] then multiset{} else multiset{MarkOf(units[0])} + Marks(units[1..])
  }

  lemma {:induction false} MarksConcat(a: seq<Unit>, b: seq<Unit>)
    ensures Marks(a + b) == Marks(a) + Marks(b)
  {
    if a == [] {
      assert a + b == b;
    } else {
      assert (a + b)[1..] == a[1..] + b;
      MarksConcat(a[1..], b);
    }
  }

  lemma {:induction false} MarksOne(u: Unit)
    ensures Marks([u]) == multiset{MarkOf(u)}
  {
    assert [u][1..] == [];
  }

  lemma {:induction false} MarksSnoc(a: seq<Unit>, u: Unit)
    ensures Marks(a + [u]) == Marks(a) + multiset{MarkOf(u)}
  {
    MarksConcat(a, [u]);
    MarksOne(u);
  }

  lemma {:induction false} MarksTail(a: seq<Unit>)
    requires a != []
    ensures Marks(a) == Marks([a[0]]) + Marks(a[1..])
  {
    MarksOne(a[0]);
  }

  predicate Mine(units: seq<Unit>, owner: TransId) {
    forall i :: 0 <= i < |units| ==> units[i].owner == owner
  }

  function Tagged(units: seq<Unit>, tag: Tag): seq<Unit> {
    if units == [] then [] else [units[0].(tag := tag)] + Tagged(units[1..], tag)
  }

  lemma {:induction false} MarksTagged(units: seq<Unit>, tag: Tag, owner: TransId)
    requires Mine(units, owner)
    ensures Marks(Tagged(units, tag)) == multiset{}[Mark(tag, owner) := |units|]
  {
    if units != [] {
      MarksTagged(units[1..], tag, owner);
      assert Tagged(units, tag)[1..] == Tagged(units[1..], tag);
    }
  }

  lemma {:induction false} MarksHead(semi: seq<Unit>, i: nat)
    requires i < |semi|
    ensures Marks(semi[i..]) == Marks(semi[i + 1..]) + multiset{MarkOf(semi[i])}
  {
    assert semi[i..][1..] == semi[i + 1..];
  }

  function CountTag(units: seq<Unit>, tag: nat): nat {
    if units == [] then 0 else (if units[0].tag == tag then 1 else 0) + CountTag(units[1..], tag)
  }

  lemma {:induction false} CountHead(units: seq<Unit>, i: nat, tag: nat)
    requires i < |units|
    ensures CountTag(units[i..], tag) == (if units[i].tag == tag then 1 else 0) + CountTag(units[i + 1..], tag)
  {
    assert units[i..][1..] == units[i + 1..];
  }

  lemma {:induction false} MarksEnds(units: seq<Unit>, tag: nat)
    ensures units[0..] == units
    ensures Marks(units[|units|..]) == multiset{} && CountTag(units[|units|..], tag) == 0
  {
  }

  lemma {:induction false} Regroup(a: multiset<Mark>, b: multiset<Mark>, c: multiset<Mark>)
    ensures a + (b + c) == a + b + c
  {
  }

  lemma {:induction false} Swap(a: multiset<Mark>, b: multiset<Mark>, c: multiset<Mark>)
    ensures a + b + c == a + c + b
  {
  }

  /** Each unit has the pointer to its destination. */
  predicate Equipped(units: seq<Unit>) {
    forall u <- units :: u.hasDest
  }

  /** What a unit is to do: whose it is, and from where to where it goes. */
  datatype Errand = Errand(tag: Tag, owner: TransId, autoDest: bool, src: nat, dest: nat)

  function ErrandOf(u: Unit): Errand {
    Errand(u.tag, u.owner, u.autoDest, u.src, u.dest)
  }

  ghost predicate Among(units: seq<Unit>, e: Errand) {
    exists i :: 0 <= i < |units| && ErrandOf(units[i]) == e
  }

  lemma {:induction false} AmongSnoc(units: seq<Unit>, u: Unit, e: Errand)
    ensures Among(units + [u], e) <==> Among(units, e) || ErrandOf(u) == e
  {
    assert (units + [u])[|units|] == u;
    assert forall i :: 0 <= i < |units| ==> (units + [u])[i] == units[i];
  }

  lemma {:induction false} AmongTail(units: seq<Unit>, e: Errand)
    requires units != []
    ensures Among(units, e) <==> ErrandOf(units[0]) == e || Among(units[1..], e)
  {
    assert forall i :: 0 <= i < |units| - 1 ==> units[1..][i] == units[i + 1];
    assert forall i :: 0 < i < |units| ==> units[i] == units[1..][i - 1];
  }

  // ----------------------------------------------------------------- messages

  /** A message is one number: the kind of event, and a priority or a tag. */
  function Word(kind: nat, arg: Priority): nat {
    kind * 0x1_0000 + arg
  }

  lemma {:induction false} WordParts(kind: nat, arg: Priority)
    requires kind < 256
    ensures Word(kind, arg) / 0x1_0000 == KindOf(Word(kind, arg)) == kind
    ensures PriorityOf(Word(kind, arg)) == arg && Word(kind, arg) % 256 == arg % 256
  {
  }

  /** The events that are sent while the workshop is at work: not the end of the workers,
      nor the order to clean up. */
  predicate Plain(word: nat) {
    var kind := word / 0x1_0000;
    kind == NEW_ITEM || kind == VANISH || kind == COMMON_DEST_CHANGE || kind == CANCEL
  }

  predicate Cancels(word: nat, tag: nat) {
    word / 0x1_0000 == CANCEL && word % 256 == tag
  }

  /** The states in which a worker passes a unit on while nothing but such events comes. */
  predicate Conveyed(s: UnitState) {
    || s == Done || s == Failed || s == SrcVanish || s == DestVanish
    || s == CommonDestVanish || s == CommonDestChange || s == Cancelled
  }

  lemma {:induction false} PlainVerdict(u: Unit, word: nat)
    requires Plain(word)
    ensures Judge(u, word).StopIn? ==> Conveyed(Judge(u, word).state)
    ensures Judge(u, word) == StopIn(Cancelled) ==> Cancels(word, u.tag)
  {
    assert KindOf(word) == word / 0x1_0000;
  }

  // ------------------------------------------------------------------ workers

  /** A worker waits for a message, takes one unit after the other, or has quit. */
  datatype WorkerMode = Waiting | Looping | Quit

  datatype Worker = Worker(mode: WorkerMode, held: Option<Unit>, inbox: seq<nat>) {
    ghost predicate InOrder() {
      && !mode.Quit? && (held.Some? ==> mode.Looping? && held.value.state == OnGoing && held.value.hasDest)
      && forall e <- inbox :: Plain(e)
    }

    ghost predicate Comes() {
      mode.Waiting? ==> exists e <- inbox :: e / 0x1_0000 == NEW_ITEM
    }
  }

  const IDLE_WORKER := Worker(Waiting, None, [])

  function MarkIn(w: Worker): multiset<Mark> {
    if w.held.Some? then multiset{MarkOf(w.held.value)} else multiset{}
  }

  /** The marks of what the workers hold. */
  function HeldMarks(workers: seq<Worker>): multiset<Mark> {
    if workers == [] then multiset{} else MarkIn(workers[0]) + HeldMarks(workers[1..])
  }

  lemma {:induction false} HeldChanges(workers: seq<Worker>, w: nat, x: Worker, m: Mark)
    requires w < |workers|
    ensures HeldMarks(workers[w := x])[m] + MarkIn(workers[w])[m] == HeldMarks(workers)[m] + MarkIn(x)[m]
    decreases workers
  {
    hide MarkIn;
    if w == 0 {
      assert workers[w := x][1..] == workers[1..];
    } else {
      assert workers[w := x][1..] == workers[1..][w - 1 := x];
      HeldChanges(workers[1..], w - 1, x, m);
    }
  }

  /** A worker that holds as before, takes a unit, or gives one away. */
  lemma {:induction false} HeldAfter(workers: seq<Worker>, w: nat, x: Worker)
    requires w < |workers|
    ensures MarkIn(x) == MarkIn(workers[w]) ==> HeldMarks(workers[w := x]) == HeldMarks(workers)
    ensures MarkIn(workers[w]) == multiset{} ==> HeldMarks(workers[w := x]) == HeldMarks(workers) + MarkIn(x)
    ensures MarkIn(x) == multiset{} ==> HeldMarks(workers) == HeldMarks(workers[w := x]) + MarkIn(workers[w])
  {
    forall m: Mark
      ensures HeldMarks(workers[w := x])[m] + MarkIn(workers[w])[m] == HeldMarks(workers)[m] + MarkIn(x)[m]
    {
      HeldChanges(workers, w, x, m);
    }
    var before, after, was, now := HeldMarks(workers), HeldMarks(workers[w := x]), MarkIn(workers[w]), MarkIn(x);
    hide *;
    CountsDiffer(before, after, was, now);
  }

  lemma {:induction false} CountsDiffer(before: multiset<Mark>, after: multiset<Mark>, was: multiset<Mark>, now: multiset<Mark>)
    requires forall m: Mark :: after[m] + was[m] == before[m] + now[m]
    ensures now == was ==> after == before
    ensures was == multiset{} ==> after == before + now
    ensures now == multiset{} ==> before == after + was
  {
  }

  ghost predicate Holds(x: Worker, e: Errand) {
    x.held.Some? && ErrandOf(x.held.value) == e
  }

  ghost predicate SomeHolds(workers: seq<Worker>, e: Errand) {
    exists i :: 0 <= i < |workers| && Holds(workers[i], e)
  }

  /** A worker holds as before, takes a unit, or gives one away. */
  lemma {:induction false} HoldsAfter(workers: seq<Worker>, w: nat, x: Worker, e: Errand)
    requires w < |workers|
    ensures Holds(x, e) == Holds(workers[w], e) ==> SomeHolds(workers[w := x], e) == SomeHolds(workers, e)
    ensures workers[w].held.None? ==> (SomeHolds(workers[w := x], e) <==> SomeHolds(workers, e) || Holds(x, e))
    ensures x.held.None? ==> (SomeHolds(workers, e) <==> SomeHolds(workers[w := x], e) || Holds(workers[w], e))
  {
    var after := workers[w := x];
    assert after[w] == x && forall i :: 0 <= i < |workers| && i != w ==> after[i] == workers[i];
    hide ErrandOf;
  }

  /** Where the units are that the workers can reach, and the workers. */
  datatype Floor = Floor(raw: seq<Unit>, workers: seq<Worker>, products: seq<Unit>) {
    function AllMarks(): multiset<Mark> {
      Marks(raw) + HeldMarks(workers) + Marks(products)
    }

    /** Some unit on the floor has this errand. */
    ghost predicate Has(e: Errand) {
      Among(raw, e) || SomeHolds(workers, e) || Among(products, e)
    }

    /** Only plain messages wait, so that no worker has quit, and every product is in a state
        that follows from them. Each raw unit and each that a worker has at hand has its
        destination, as the ways of conveying demand. */
    ghost predicate Orderly() {
      && |workers| == CONCURRENCY
      && (forall x <- workers :: x.InOrder())
      && Equipped(raw)
      && (forall u <- products :: Conveyed(u.state))
    }

    /** While there is raw material, each worker is at it or will read that there is. */
    ghost predicate Awake() {
      raw == [] || forall x <- workers :: x.Comes()
    }

    /** The order to cancel a tag is still on its way, or it has stopped a unit that the
        main thread has not seen yet. */
    ghost predicate Doomed(tag: nat) {
      || (exists x <- workers :: exists e <- x.inbox :: Cancels(e, tag))
      || (exists u <- products :: u.tag == tag && u.state == Cancelled)
    }

    /** The order to cancel a tag waits in some worker's queue. */
    ghost predicate CancelWaits(tag: nat) {
      exists x <- workers :: exists e <- x.inbox :: Cancels(e, tag)
    }
  }

  // ---------------------------------------------------- what the workers do

  /** One step of worker w: it reads the next message while it waits, takes the next raw
      unit, looks for a message during its work, or comes to the end of the unit. */
  datatype Move = Read(w: nat) | Take(w: nat) | Look(w: nat) | End(w: nat, ok: bool)

  /** A worker ends the work on its unit: it is a product, or raw material again when the
      worker quits. */
  function Finish(f: Floor, w: nat, s: UnitState): Floor
    requires w < |f.workers| && f.workers[w].held.Some?
  {
    var x := f.workers[w];
    var material := Stopped(x.held.value, s);
    if s == NoWorkload then
      f.(workers := f.workers[w := x.(held := None, mode := Quit)], raw := f.raw + [material])
    else
      f.(workers := f.workers[w := x.(held := None)], products := f.products + [material])
  }

  function AfterRead(x: Worker): Worker
    requires x.inbox != []
  {
    var kind := x.inbox[0] / 0x1_0000;
    x.(inbox := x.inbox[1..], mode := if kind == NEW_ITEM then Looping else if kind == STOP then Quit else x.mode)
  }

  function AfterTake(f: Floor, w: nat): Floor
    requires w < |f.workers|
  {
    var x := f.workers[w];
    if f.raw == [] then f.(workers := f.workers[w := x.(mode := Waiting)])
    else f.(raw := f.raw[1..], workers := f.workers[w := x.(held := Some(f.raw[0].(state := OnGoing)))])
  }

  function AfterLook(f: Floor, w: nat): Floor
    requires w < |f.workers| && f.workers[w].held.Some? && f.workers[w].inbox != []
  {
    var x := f.workers[w];
    var looked := f.(workers := f.workers[w := x.(inbox := x.inbox[1..])]);
    match Judge(x.held.value, x.inbox[0])
    case GoOn => looked
    case StopIn(s) => Finish(looked, w, s)
  }

  /** A step that a worker cannot take now changes nothing. */
  function AfterMove(f: Floor, m: Move): Floor {
    if m.w >= |f.workers| then f
    else
      var x := f.workers[m.w];
      match m
      case Read(w) =>
        if x.mode.Waiting? && x.inbox != [] then f.(workers := f.workers[w := AfterRead(x)]) else f
      case Take(w) => if x.mode.Looping? && x.held.None? then AfterTake(f, w) else f
      case Look(w) => if x.held.Some? && x.inbox != [] then AfterLook(f, w) else f
      case End(w, ok) => if x.held.Some? then Finish(f, w, if ok then Done else Failed) else f
  }

  function AfterMoves(f: Floor, moves: seq<Move>): Floor
    decreases moves
  {
    if moves == [] then f else AfterMoves(AfterMove(f, moves[0]), moves[1..])
  }

  /** A worker is unchanged apart from what it holds. */
  lemma {:induction false} WorkerKeepsMarks(f: Floor, w: nat, x: Worker)
    requires w < |f.workers| && x.held == f.workers[w].held
    ensures f.(workers := f.workers[w := x]).AllMarks() == f.AllMarks()
  {
    HeldAfter(f.workers, w, x);
    hide Marks, HeldMarks;
  }

  lemma {:induction false} FinishKeepsMarks(f: Floor, w: nat, s: UnitState)
    requires w < |f.workers| && f.workers[w].held.Some?
    ensures Finish(f, w, s).AllMarks() == f.AllMarks()
  {
    hide Marks, HeldMarks;
    var u := f.workers[w].held.value;
    HeldAfter(f.workers, w, Finish(f, w, s).workers[w]);
    MarksSnoc(f.raw, Stopped(u, s));
    MarksSnoc(f.products, Stopped(u, s));
  }

  lemma {:induction false} TakeKeepsMarks(f: Floor, w: nat)
    requires w < |f.workers| && f.workers[w].held.None?
    ensures AfterTake(f, w).AllMarks() == f.AllMarks()
  {
    if f.raw == [] {
      WorkerKeepsMarks(f, w, f.workers[w].(mode := Waiting));
    } else {
      MarksTail(f.raw);
      MarksOne(f.raw[0]);
      HeldAfter(f.workers, w, f.workers[w].(held := Some(f.raw[0].(state := OnGoing))));
      hide Marks, HeldMarks;
    }
  }

  lemma {:induction false} MoveKeepsMarks(f: Floor, m: Move)
    ensures AfterMove(f, m).AllMarks() == f.AllMarks()
  {
    hide Floor.AllMarks, Finish, AfterTake, AfterRead, Judge;
    if m.w < |f.workers| {
      var w, x := m.w, f.workers[m.w];
      match m {
        case Read(_) =>
          if x.mode.Waiting? && x.inbox != [] {
            ReadHoldsTheSame(x);
            WorkerKeepsMarks(f, w, AfterRead(x));
          }
        case Take(_) =>
          if x.held.None? {
            TakeKeepsMarks(f, w);
          }
        case Look(_) =>
          if x.held.Some? && x.inbox != [] {
            WorkerKeepsMarks(f, w, x.(inbox := x.inbox[1..]));
            var looked := f.(workers := f.workers[w := x.(inbox := x.inbox[1..])]);
            if Judge(x.held.value, x.inbox[0]).StopIn? {
              FinishKeepsMarks(looked, w, Judge(x.held.value, x.inbox[0]).state);
            }
          }
        case End(_, ok) =>
          if x.held.Some? {
            FinishKeepsMarks(f, w, if ok then Done else Failed);
          }
      }
    }
  }

  lemma {:induction false} ReadHoldsTheSame(x: Worker)
    requires x.inbox != []
    ensures AfterRead(x).held == x.held
  {
  }

  /** Whatever the workers do, no unit is lost, made or passed to another owner. */
  lemma {:induction false} MovesKeepMarks(f: Floor, moves: seq<Move>)
    ensures AfterMoves(f, moves).AllMarks() == f.AllMarks()
    decreases moves
  {
    if moves != [] {
      MoveKeepsMarks(f, moves[0]);
      MovesKeepMarks(AfterMove(f, moves[0]), moves[1..]);
    }
  }

  lemma {:induction false} FinishKeepsErrands(f: Floor, w: nat, s: UnitState, e: Errand)
    requires w < |f.workers| && f.workers[w].held.Some?
    ensures Finish(f, w, s).Has(e) <==> f.Has(e)
  {
    var u := f.workers[w].held.value;
    HoldsAfter(f.workers, w, Finish(f, w, s).workers[w], e);
    AmongSnoc(f.raw, Stopped(u, s), e);
    AmongSnoc(f.products, Stopped(u, s), e);
    hide Among, SomeHolds;
  }

  lemma {:induction false} TakeKeepsErrands(f: Floor, w: nat, e: Errand)
    requires w < |f.workers| && f.workers[w].held.None?
    ensures AfterTake(f, w).Has(e) <==> f.Has(e)
  {
    HoldsAfter(f.workers, w, AfterTake(f, w).workers[w], e);
    if f.raw != [] {
      AmongTail(f.raw, e);
    }
    hide Among, SomeHolds;
  }

  lemma {:induction false} MoveKeepsErrands(f: Floor, m: Move, e: Errand)
    ensures AfterMove(f, m).Has(e) <==> f.Has(e)
  {
    hide Among, SomeHolds, Finish, AfterTake, AfterRead, Judge;
    if m.w < |f.workers| {
      var w, x := m.w, f.workers[m.w];
      match m {
        case Read(_) =>
          if x.mode.Waiting? && x.inbox != [] {
            ReadHoldsTheSame(x);
            HoldsAfter(f.workers, w, AfterRead(x), e);
          }
        case Take(_) =>
          if x.held.None? {
            TakeKeepsErrands(f, w, e);
          }
        case Look(_) =>
          if x.held.Some? && x.inbox != [] {
            var looked := f.(workers := f.workers[w := x.(inbox := x.inbox[1..])]);
            HoldsAfter(f.workers, w, x.(inbox := x.inbox[1..]), e);
            if Judge(x.held.value, x.inbox[0]).StopIn? {
              FinishKeepsErrands(looked, w, Judge(x.held.value, x.inbox[0]).state, e);
            }
          }
        case End(_, ok) =>
          if x.held.Some? {
            FinishKeepsErrands(f, w, if ok then Done else Failed, e);
          }
      }
    }
  }

  /** Whatever the workers do, each unit keeps its tag, its owner, its source and its
      destination. */
  lemma {:induction false} MovesKeepErrands(f: Floor, moves: seq<Move>, e: Errand)
    ensures AfterMoves(f, moves).Has(e) <==> f.Has(e)
    decreases moves
  {
    hide Floor.Has, AfterMove;
    if moves != [] {
      MoveKeepsErrands(f, moves[0], e);
      MovesKeepErrands(AfterMove(f, moves[0]), moves[1..], e);
    }
  }

  /** No tag is doomed that was not. */
  ghost predicate NoMoreDoomed(before: Floor, after: Floor) {
    forall t :: after.Doomed(t) ==> before.Doomed(t)
  }

  /** One worker's messages become fewer, and at most one product is added. */
  ghost predicate StepsTo(before: Floor, after: Floor, w: nat) {
    && w < |before.workers| == |after.workers|
    && (forall i :: 0 <= i < |before.workers| && i != w ==> after.workers[i] == before.workers[i])
    && after.workers[w].InOrder() && (forall u <- after.raw :: u in before.raw)
    && (forall e <- after.workers[w].inbox :: e in before.workers[w].inbox)
    && (after.products == before.products
        || exists u :: after.products == before.products + [u] && Conveyed(u.state)
             && (u.state == Cancelled ==> exists e <- before.workers[w].inbox :: Cancels(e, u.tag)))
  }

  lemma {:induction false} StepKeepsOrder(before: Floor, after: Floor, w: nat)
    requires before.Orderly() && StepsTo(before, after, w)
    ensures after.Orderly() && NoMoreDoomed(before, after)
  {
    forall x | x in after.workers ensures x.InOrder() {
      var i :| 0 <= i < |after.workers| && after.workers[i] == x;
      assert i != w ==> x in before.workers;
    }
    forall t | after.Doomed(t) ensures before.Doomed(t) {
      if x :| x in after.workers && exists e <- x.inbox :: Cancels(e, t) {
        var i :| 0 <= i < |after.workers| && after.workers[i] == x;
        var e :| e in x.inbox && Cancels(e, t);
        assert before.workers[i] in before.workers && e in before.workers[i].inbox;
      } else {
        var u :| u in after.products && u.tag == t && u.state == Cancelled;
        if u !in before.products {
          assert before.workers[w] in before.workers;
        }
      }
    }
  }

  lemma {:induction false} MoveSteps(f: Floor, m: Move)
    requires f.Orderly() && m.w < |f.workers|
    ensures StepsTo(f, AfterMove(f, m), m.w)
  {
    hide Judge;
    var x := f.workers[m.w];
    assert x in f.workers;
    if m.Look? && x.held.Some? && x.inbox != [] {
      assert x.inbox[0] in x.inbox;
      PlainVerdict(x.held.value, x.inbox[0]);
    }
    if x.inbox != [] {
      assert x.inbox[0] in x.inbox && forall e <- x.inbox[1..] :: e in x.inbox;
    }
  }

  /** Plain messages leave every product in a state that follows from them, and no move
      dooms a tag. */
  lemma {:induction false} MovesKeepOrder(f: Floor, moves: seq<Move>)
    requires f.Orderly()
    ensures AfterMoves(f, moves).Orderly() && NoMoreDoomed(f, AfterMoves(f, moves))
    decreases moves
  {
    if moves != [] {
      var next := AfterMove(f, moves[0]);
      if moves[0].w < |f.workers| {
        MoveSteps(f, moves[0]);
        StepKeepsOrder(f, next, moves[0].w);
      }
      MovesKeepOrder(next, moves[1..]);
    }
  }

  /** The workers do not forget the raw material. */
  lemma {:induction false} MoveStaysAwake(f: Floor, m: Move)
    requires f.Orderly() && f.Awake()
    ensures AfterMove(f, m).Awake()
  {
    if m.w < |f.workers| {
      var x, g := f.workers[m.w], AfterMove(f, m);
      assert x in f.workers;
      if m.Look? && x.held.Some? && x.inbox != [] {
        assert x.inbox[0] in x.inbox;
        PlainVerdict(x.held.value, x.inbox[0]);
      }
      if g.raw != [] {
        forall y | y in g.workers ensures y.Comes() {
          var i :| 0 <= i < |g.workers| && g.workers[i] == y;
          if i != m.w {
            assert y in f.workers;
          } else if m.Read? && x.mode.Waiting? && x.inbox != [] {
            var e :| e in x.inbox && e / 0x1_0000 == NEW_ITEM;
            assert x.inbox == [x.inbox[0]] + x.inbox[1..];
          }
        }
      }
      hide Judge, Plain;
    }
  }

  lemma {:induction false} MovesStayAwake(f: Floor, moves: seq<Move>)
    requires f.Orderly() && f.Awake()
    ensures AfterMoves(f, moves).Awake()
    decreases moves
  {
    if moves != [] {
      MovesKeepOrder(f, moves[..1]);
      assert AfterMoves(f, moves[..1]) == AfterMove(f, moves[0]) by {
        assert moves[..1][1..] == [];
      }
      MoveStaysAwake(f, moves[0]);
      MovesStayAwake(AfterMove(f, moves[0]), moves[1..]);
    }
  }

  /** While there is raw material and nobody overlooks it, each worker can go on. */
  lemma {:induction false} AwakeWorks(f: Floor, w: nat) returns (m: Move)
    requires f.Orderly() && f.Awake() && f.raw != [] && w < |f.workers|
    ensures m.w == w && AfterMove(f, m) != f
  {
    var x := f.workers[w];
    assert x in f.workers;
    if x.held.Some? {
      m := End(w, true);
    } else if x.mode.Looping? {
      m := Take(w);
    } else {
      m := Read(w);
    }
  }

  /** The messages that the turns of a copy meet are the next ones of the worker. */
  ghost predicate Meets(turns: seq<CopyTurn>, inbox: seq<nat>)
    decreases turns
  {
    if turns == [] then true
    else if turns[0].event == 0 then Meets(turns[1..], inbox)
    else inbox != [] && inbox[0] == turns[0].event && Meets(turns[1..], inbox[1..])
  }

  /** The steps in which worker w copies to a log file. */
  function CopyMoves(u: Unit, w: nat, size: nat, turns: seq<CopyTurn>): seq<Move>
    decreases turns
  {
    if size == 0 then [End(w, true)]
    else if turns == [] || turns[0].nr <= 0 || turns[0].nwr != ReadUpTo(turns[0], size) then [End(w, false)]
    else
      var look := if turns[0].event == 0 then [] else [Look(w)];
      if Judge(u, turns[0].event).StopIn? then look
      else look + CopyMoves(u, w, size - ReadUpTo(turns[0], size), turns[1..])
  }

  lemma {:induction false} MovesOn(f: Floor, m: Move, moves: seq<Move>)
    ensures AfterMoves(f, [m] + moves) == AfterMoves(AfterMove(f, m), moves)
  {
    assert ([m] + moves)[1..] == moves;
  }

  /** The steps of a worker are what the way of conveying does: the unit is passed on in the
      state in which the copy ends, with the messages that it met. */
  lemma {:induction false} CopyIsMoves(f: Floor, w: nat, size: nat, turns: seq<CopyTurn>)
    requires w < |f.workers| && f.workers[w].held.Some? && Meets(turns, f.workers[w].inbox)
    ensures var u := f.workers[w].held.value;
      var g, state := AfterMoves(f, CopyMoves(u, w, size, turns)), StateOf(CopySized(u, size, turns));
      && |g.workers| == |f.workers| && g.workers[w].held.None?
      && (if state == NoWorkload then g.raw == f.raw + [Stopped(u, state)] && g.products == f.products
          else g.raw == f.raw && g.products == f.products + [Stopped(u, state)])
    decreases turns
  {
    var x := f.workers[w];
    var u := x.held.value;
    assert Judge(u, 0).GoOn?;
    hide Judge;
    MovesOn(f, End(w, true), []);
    MovesOn(f, End(w, false), []);
    if size > 0 && turns != [] && turns[0].nr > 0 && turns[0].nwr == ReadUpTo(turns[0], size) {
      var left, rest := size - ReadUpTo(turns[0], size), turns[1..];
      if turns[0].event == 0 {
        assert CopyMoves(u, w, size, turns) == CopyMoves(u, w, left, rest);
        CopyIsMoves(f, w, left, rest);
      } else {
        var looked := f.(workers := f.workers[w := x.(inbox := x.inbox[1..])]);
        if Judge(u, turns[0].event).StopIn? {
          MovesOn(f, Look(w), []);
        } else {
          MovesOn(f, Look(w), CopyMoves(u, w, left, rest));
          CopyIsMoves(looked, w, left, rest);
        }
      }
    } else {
      assert [End(w, true)] + [] == [End(w, true)] && [End(w, false)] + [] == [End(w, false)];
    }
  }

  // ------------------------------------------------ what the main thread does

  function Messaged(workers: seq<Worker>, word: nat): seq<Worker> {
    if workers == [] then [] else [workers[0].(inbox := workers[0].inbox + [word])] + Messaged(workers[1..], word)
  }

  /** Every worker gets the message. */
  function Notified(f: Floor, word: nat): Floor {
    f.(workers := Messaged(f.workers, word))
  }

  lemma {:induction false} MessagedAt(workers: seq<Worker>, word: nat)
    ensures |Messaged(workers, word)| == |workers| && HeldMarks(Messaged(workers, word)) == HeldMarks(workers)
    ensures forall i :: 0 <= i < |workers| ==>
      Messaged(workers, word)[i] == workers[i].(inbox := workers[i].inbox + [word])
  {
    if workers != [] {
      MessagedAt(workers[1..], word);
    }
  }

  lemma {:induction false} NotifyKeeps(f: Floor, word: nat)
    requires f.Orderly() && Plain(word)
    ensures Notified(f, word).Orderly() && Notified(f, word).AllMarks() == f.AllMarks()
    ensures f.Awake() || word / 0x1_0000 == NEW_ITEM ==> Notified(f, word).Awake()
    ensures forall t :: Notified(f, word).Doomed(t) ==> f.Doomed(t) || Cancels(word, t)
  {
    MessagedAt(f.workers, word);
    var g := Notified(f, word);
    hide Messaged, Plain, Marks, HeldMarks;
    forall x | x in g.workers
      ensures x.InOrder() && (f.raw != [] && (f.Awake() || word / 0x1_0000 == NEW_ITEM) ==> x.Comes())
    {
      var i :| 0 <= i < |g.workers| && g.workers[i] == x;
      var was := f.workers[i];
      assert was in f.workers && x.inbox == was.inbox + [word];
      assert word in x.inbox;
      if x.mode.Waiting? && f.raw != [] && word / 0x1_0000 != NEW_ITEM && f.Awake() {
        var e :| e in was.inbox && e / 0x1_0000 == NEW_ITEM;
        assert e in x.inbox;
      }
    }
    forall t | g.Doomed(t) && !Cancels(word, t) ensures f.Doomed(t) {
      if x :| x in g.workers && exists e <- x.inbox :: Cancels(e, t) {
        var i :| 0 <= i < |g.workers| && g.workers[i] == x;
        var e :| e in x.inbox && Cancels(e, t);
        assert f.workers[i] in f.workers && e in f.workers[i].inbox;
      }
    }
  }

  lemma {:induction false} PushKeeps(f: Floor, u: Unit)
    ensures f.(raw := f.raw + [u]).AllMarks() == f.AllMarks() + multiset{MarkOf(u)}
    ensures f.Orderly() && u.hasDest ==> f.(raw := f.raw + [u]).Orderly()
    ensures NoMoreDoomed(f, f.(raw := f.raw + [u]))
  {
    MarksSnoc(f.raw, u);
    hide Marks;
  }

  /** The units of a request are pushed one by one, and the workers move in between. */
  function Pushed(f: Floor, units: seq<Unit>, tag: Tag, moves: seq<Move>): Floor
    decreases units
  {
    if units == [] then f
    else Pushed(AfterMoves(f.(raw := f.raw + [units[0].(tag := tag)]), moves), units[1..], tag, moves)
  }

  /** Pushing the units of a request adds exactly these units, whatever the workers do
      meanwhile. */
  lemma {:induction false} PushedAddsMarks(f: Floor, units: seq<Unit>, tag: Tag, moves: seq<Move>)
    ensures Pushed(f, units, tag, moves).AllMarks() == f.AllMarks() + Marks(Tagged(units, tag))
    decreases units
  {
    if units != [] {
      var u := units[0].(tag := tag);
      var first := AfterMoves(f.(raw := f.raw + [u]), moves);
      PushKeeps(f, u);
      MovesKeepMarks(f.(raw := f.raw + [u]), moves);
      PushedAddsMarks(first, units[1..], tag, moves);
      assert Tagged(units, tag)[1..] == Tagged(units[1..], tag);
      MarksTail(Tagged(units, tag));
      MarksOne(u);
    }
    hide Floor.AllMarks;
  }

  /** Pushing a unit adds the errand of that unit with its tag, and no other. */
  lemma {:induction false} PushedAddsErrand(f: Floor, u: Unit, tag: Tag, moves: seq<Move>, e: Errand)
    ensures Pushed(f, [u], tag, moves).Has(e) <==> f.Has(e) || e == ErrandOf(u.(tag := tag))
  {
    var g := f.(raw := f.raw + [u.(tag := tag)]);
    AmongSnoc(f.raw, u.(tag := tag), e);
    MovesKeepErrands(g, moves, e);
    assert Pushed(f, [u], tag, moves) == AfterMoves(g, moves);
    hide Among, SomeHolds, AfterMoves, Pushed;
  }

  lemma {:induction false} MessageKeepsErrands(f: Floor, word: nat, e: Errand)
    ensures Notified(f, word).Has(e) <==> f.Has(e)
  {
    MessagedAt(f.workers, word);
    assert forall i :: 0 <= i < |f.workers| ==> Holds(Messaged(f.workers, word)[i], e) == Holds(f.workers[i], e);
    hide Among, Messaged, Holds;
  }

  lemma {:induction false} PushedKeepsOrder(f: Floor, units: seq<Unit>, tag: Tag, moves: seq<Move>)
    requires f.Orderly() && Equipped(units)
    ensures Pushed(f, units, tag, moves).Orderly() && NoMoreDoomed(f, Pushed(f, units, tag, moves))
    decreases units
  {
    if units != [] {
      var g := f.(raw := f.raw + [units[0].(tag := tag)]);
      PushKeeps(f, units[0].(tag := tag));
      MovesKeepOrder(g, moves);
      PushedKeepsOrder(AfterMoves(g, moves), units[1..], tag, moves);
    }
  }

  lemma {:induction false} ProductTaken(f: Floor)
    requires f.products != []
    ensures var g := f.(products := f.products[1..]);
      && f.AllMarks() == g.AllMarks() + multiset{MarkOf(f.products[0])}
      && NoMoreDoomed(f, g) && (f.Orderly() ==> g.Orderly() && Conveyed(f.products[0].state))
      && (f.Awake() ==> g.Awake())
      && (f.products[0].state == Cancelled ==> f.Doomed(f.products[0].tag))
  {
    MarksTail(f.products);
    MarksOne(f.products[0]);
    hide Marks;
    assert f.products[0] in f.products;
  }

  lemma {:induction false} AllTaken(f: Floor)
    ensures var g := f.(raw := []);
      && f.AllMarks() + multiset{} == g.AllMarks() + Marks(f.raw)
      && NoMoreDoomed(f, g) && (f.Orderly() ==> g.Orderly()) && g.Awake()
  {
    assert Marks([]) == multiset{};
    hide Marks;
  }

  /** What is left of the raw material when the units with a tag are dropped one by one, while
      the workers move; the others go to its end again. */
  function Kept(f: Floor, units: seq<Unit>, tag: Tag, ms: seq<seq<Move>>): Floor
    requires |ms| == |units|
    decreases units
  {
    if units == [] then f
    else
      var g := AfterMoves(f, ms[0]);
      Kept(if units[0].tag == tag then g else g.(raw := g.raw + [units[0]]), units[1..], tag, ms[1..])
  }

  lemma {:induction false} ProductMark(f: Floor, u: Unit)
    requires u in f.products
    ensures MarkOf(u) in f.AllMarks()
  {
    InMarks(f.products, u);
    hide Marks, HeldMarks;
  }

  lemma {:induction false} InMarks(units: seq<Unit>, u: Unit)
    requires u in units
    ensures MarkOf(u) in Marks(units)
  {
    if units[0] != u {
      InMarks(units[1..], u);
    }
  }

  lemma {:induction false} NoneLeft(a: multiset<Mark>, b: multiset<Mark>)
    ensures a + b + multiset{} == a + (multiset{} + b)
  {
  }
}
