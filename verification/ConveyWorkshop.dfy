/** The workshop and its clients, the convey transactions. Four workers take units from
    the raw queue and put them into the product queue; what they do between two steps of
    the main thread is an input. The callbacks of the transactions come back into the
    workshop, so that both are in one class. */
module ConveyWorkshop {
  import opened Basics
  import opened ConveyUnits
  import opened ConveyFloor
  import opened ConveyClients

  /** What happens to the workshop, in any order. */
  datatype Event =
    | Work(moves: seq<Move>)
    | ExecuteTrans(id: TransId, moves: seq<Move>)
    | Drain(rs: seq<Reaction>)
    | MediaChanged(current: Option<Priority>, rs: seq<Reaction>)
    | MediaGone(priority: Priority, rs: seq<Reaction>)
    | CancelTrans(id: TransId, ms: seq<seq<Move>>)

  /** The event does not cancel the transaction. */
  predicate Spares(e: Event, c: TransId) {
    e.CancelTrans? ==> e.id != c
  }

  predicate AllSpare(events: seq<Event>, c: TransId) {
    forall e <- events :: Spares(e, c)
  }

  /** The event gives no tag out. */
  predicate StartsNothing(e: Event) {
    match e
    case ExecuteTrans(_, _) => false
    case Drain(rs) => NoneStarted(rs)
    case MediaChanged(_, rs) => NoneStarted(rs)
    case MediaGone(_, rs) => NoneStarted(rs)
    case _ => true
  }

  /** The event puts no raw unit back. */
  predicate PutsNothingBack(e: Event) {
    e.Work? || e.ExecuteTrans? || e.Drain?
  }

  predicate NoneStarts(events: seq<Event>) {
    forall e <- events :: StartsNothing(e)
  }

  predicate NonePutsBack(events: seq<Event>) {
    forall e <- events :: PutsNothingBack(e)
  }

  lemma {:induction false} EventAt(events: seq<Event>, i: nat)
    requires i < |events|
    ensures NoneStarts(events) ==> StartsNothing(events[i])
    ensures NonePutsBack(events) ==> PutsNothingBack(events[i])
    ensures events[..i + 1] == events[..i] + [events[i]]
  {
    assert events[i] in events;
  }

  lemma {:induction false} EventsEnd(events: seq<Event>)
    ensures events[..|events|] == events
  {
  }

  predicate NoneStarted(rs: seq<Reaction>) {
    forall i :: 0 <= i < |rs| ==> rs[i].started == []
  }

  /** Those without a slot that nobody cancels stay as they are. */
  predicate StuckStay(before: map<TransId, Trans>, after: map<TransId, Trans>, events: seq<Event>) {
    forall c <- before :: Stuck(before[c]) && AllSpare(events, c) ==> c in after && after[c] == before[c]
  }

  lemma {:induction false} StuckStayOn(
      a: map<TransId, Trans>, b: map<TransId, Trans>, c: map<TransId, Trans>, events: seq<Event>, e: Event)
    requires StuckStay(a, b, events) && StuckStay(b, c, [e])
    ensures StuckStay(a, c, events + [e])
  {
    forall t | t in a && Stuck(a[t]) && AllSpare(events + [e], t) ensures t in c && c[t] == a[t] {
      assert forall x <- events :: x in events + [e];
      assert e in events + [e];
    }
  }

  /** As many reactions as there are units: nothing happens where none is given. */
  function FitReactions(rs: seq<Reaction>, n: nat): (fit: seq<Reaction>)
    ensures |fit| == n && (NoneStarted(rs) ==> NoneStarted(fit))
  {
    seq(n, i requires 0 <= i => if i < |rs| then rs[i] else Reaction([], false, 0, []))
  }

  function FitMoves(ms: seq<seq<Move>>, n: nat): (fit: seq<seq<Move>>)
    ensures |fit| == n
  {
    seq(n, i requires 0 <= i => if i < |ms| then ms[i] else [])
  }

  lemma {:induction false} WordsArePlain(e: MediaEvent, tag: Tag)
    ensures Plain(WordOf(e)) && forall t :: !Cancels(WordOf(e), t)
    ensures Plain(Word(CANCEL, tag)) && forall t :: Cancels(Word(CANCEL, tag), t) ==> t == tag
    ensures Plain(Word(NEW_ITEM, 0)) && Word(NEW_ITEM, 0) / 0x1_0000 == NEW_ITEM && forall t :: !Cancels(Word(NEW_ITEM, 0), t)
  {
    WordParts(NEW_ITEM, 0);
    WordParts(CANCEL, tag);
    match e
    case CurrentChanged(p) => WordParts(COMMON_DEST_CHANGE, p);
    case Inactive(p) => WordParts(VANISH, p);
  }

  /** What holds between the floor and the clients besides the counts. `reused`: some tag
      was given to a client while the order to cancel it still waited. `asleep`: some raw
      unit went back to the raw queue although a worker had stopped looking there. */
  ghost predicate Running(f: Floor, table: seq<Slot>, trans: map<TransId, Trans>, reused: bool, asleep: bool) {
    && f.Orderly() && (!asleep ==> f.Awake())
    && (!reused ==> Clear(table, f) && NoneCancelled(trans))
  }

  lemma {:induction false} RunsOn(f: Floor, g: Floor, table: seq<Slot>, trans: map<TransId, Trans>, reused: bool, asleep: bool)
    requires Running(f, table, trans, reused, asleep)
    requires g.Orderly() && NoMoreDoomed(f, g) && (f.Awake() ==> g.Awake())
    ensures Running(g, table, trans, reused, asleep)
  {
    hide Floor.Orderly, Floor.Awake, NoneCancelled;
    if !reused {
      ClearOn(table, f, g);
    }
  }

  lemma {:induction false} MovesRun(f: Floor, moves: seq<Move>, table: seq<Slot>, trans: map<TransId, Trans>, reused: bool, asleep: bool)
    requires Running(f, table, trans, reused, asleep)
    ensures Running(AfterMoves(f, moves), table, trans, reused, asleep)
  {
    MovesKeepOrder(f, moves);
    if f.Awake() {
      MovesStayAwake(f, moves);
    }
    hide Floor.Orderly, Floor.Awake, Running, NoMoreDoomed;
    RunsOn(f, AfterMoves(f, moves), table, trans, reused, asleep);
  }

  /** A request is attached: its units are raw material, and the workers were told. */
  lemma {:induction false} AttachRuns(
      f: Floor, g: Floor, table: seq<Slot>, trans: map<TransId, Trans>, reused: bool, asleep: bool, tag: nat, slot: Slot)
    requires Running(f, table, trans, reused, asleep) && tag <= |table|
    requires g.Orderly() && NoMoreDoomed(f, g) && g.Awake()
    requires forall m :: m in f.AllMarks() ==> m.tag != tag
    ensures Running(g, PutSlot(table, tag, slot), trans, reused || f.CancelWaits(tag), asleep)
  {
    hide Floor.Orderly, Floor.Awake, Floor.AllMarks, NoneCancelled;
    if !reused && !f.CancelWaits(tag) {
      ClearAttach(table, f, g, tag, slot);
    }
  }

  lemma {:induction false} RequestedRuns(f: Floor, units: seq<Unit>, tag: Tag, moves: seq<Move>)
    requires f.Orderly() && Equipped(units)
    ensures var g := Notified(Pushed(f, units, tag, moves), Word(NEW_ITEM, 0));
      && g.Orderly() && NoMoreDoomed(f, g) && g.Awake()
      && g.AllMarks() == f.AllMarks() + Marks(Tagged(units, tag))
  {
    WordsArePlain(Inactive(0), tag);
    PushedKeepsOrder(f, units, tag, moves);
    PushedAddsMarks(f, units, tag, moves);
    hide Floor.Orderly, Floor.Awake, Floor.AllMarks, Floor.Doomed, Pushed, Notified, Plain, Cancels, Word;
    NotifyKeeps(Pushed(f, units, tag, moves), Word(NEW_ITEM, 0));
  }

  lemma {:induction false} Attached(
      f: Floor, table: seq<Slot>, trans: map<TransId, Trans>, reused: bool, asleep: bool,
      client: TransId, units: seq<Unit>, tag: Tag, moves: seq<Move>, extra: multiset<Mark>)
    requires Running(f, table, trans, reused, asleep) && Mine(units, client) && Equipped(units) && tag <= |table|
    requires forall m :: m in f.AllMarks() + extra ==> m.tag != tag
    requires Matches(PutSlot(table, tag, Slot(Some(client), |units|, client)),
                     f.AllMarks() + extra + multiset{}[Mark(tag, client) := |units|])
    ensures var g := Notified(Pushed(f, units, tag, moves), Word(NEW_ITEM, 0));
      var table' := PutSlot(table, tag, Slot(Some(client), |units|, client));
      && Matches(table', g.AllMarks() + extra)
      && Running(g, table', trans, reused || f.CancelWaits(tag), asleep)
  {
    assert f.Orderly();
    hide Running, Matches, Floor.AllMarks, Floor.Orderly, Floor.Awake, Floor.CancelWaits, NoMoreDoomed, Notified, Pushed,
      Word, Marks, Tagged;
    MarksTagged(units, tag, client);
    RequestedRuns(f, units, tag, moves);
    Swap(f.AllMarks(), multiset{}[Mark(tag, client) := |units|], extra);
    assert forall m :: m in f.AllMarks() ==> m in f.AllMarks() + extra;
    AttachRuns(f, Notified(Pushed(f, units, tag, moves), Word(NEW_ITEM, 0)), table, trans, reused, asleep,
               tag, Slot(Some(client), |units|, client));
  }

  lemma {:induction false} OneRequested(
      f: Floor, table: seq<Slot>, trans: map<TransId, Trans>, reused: bool, asleep: bool,
      cu: Unit, tag: Tag, moves: seq<Move>, extra: multiset<Mark>)
    requires Running(f, table, trans, reused, asleep) && Matches(table, f.AllMarks() + extra)
    requires tag < |table| && table[tag].owner == cu.owner && cu.hasDest
    ensures var g := Notified(Pushed(f, [cu], tag, moves), Word(NEW_ITEM, 0));
      && Matches(OneMoreRequest(table, tag), g.AllMarks() + extra)
      && Running(g, OneMoreRequest(table, tag), trans, reused, asleep)
  {
    assert f.Orderly();
    var g := Notified(Pushed(f, [cu], tag, moves), Word(NEW_ITEM, 0));
    OneTagged(cu, tag);
    hide Running, Matches, Floor.AllMarks, Floor.Orderly, Floor.Awake, NoMoreDoomed, Notified, Pushed, Word, Marks, Tagged;
    RequestedRuns(f, [cu], tag, moves);
    Swap(f.AllMarks(), multiset{Mark(tag, cu.owner)}, extra);
    CountOneMore(table, f.AllMarks() + extra, tag);
    RunsOn(f, g, table, trans, reused, asleep);
    TableRuns(g, table, OneMoreRequest(table, tag), trans, reused, asleep);
  }

  lemma {:induction false} OneTagged(cu: Unit, tag: Tag)
    ensures Marks(Tagged([cu], tag)) == multiset{Mark(tag, cu.owner)}
  {
    assert Tagged([cu], tag) == [cu.(tag := tag)];
    MarksOne(cu.(tag := tag));
  }

  lemma {:induction false} BooksRun(
      f: Floor, table: seq<Slot>, trans: map<TransId, Trans>, reused: bool, asleep: bool, c: TransId, t: Trans)
    requires Running(f, table, trans, reused, asleep)
    requires c in trans ==> NoCancelled(trans[c].handed) ==> NoCancelled(t.handed)
    requires c !in trans ==> NoCancelled(t.handed)
    ensures Running(f, table, trans[c := t], reused, asleep)
  {
    hide Floor.Orderly, Floor.Awake, Clear, NoCancelled;
  }

  lemma {:induction false} TableRuns(
      f: Floor, table: seq<Slot>, table': seq<Slot>, trans: map<TransId, Trans>, reused: bool, asleep: bool)
    requires Running(f, table, trans, reused, asleep)
    requires forall t :: NoClient(table, t) ==> NoClient(table', t)
    ensures Running(f, table', trans, reused, asleep)
  {
    hide Floor.Orderly, Floor.Awake, NoneCancelled;
    if !reused {
      ClearLess(table, table', f);
    }
  }

  lemma {:induction false} HandedRuns(
      f: Floor, table: seq<Slot>, trans: map<TransId, Trans>, reused: bool, asleep: bool, c: TransId, h: HandBack, t: Trans)
    requires Running(f, table, trans, reused, asleep) && c in trans && t.handed == trans[c].handed + [h]
    requires h.state == Cancelled ==> reused
    ensures Running(f, table, trans[c := t], reused, asleep)
  {
    hide Floor.Orderly, Floor.Awake, Clear;
  }

  lemma {:induction false} LeftRuns(
      f: Floor, table: seq<Slot>, trans: map<TransId, Trans>, reused: bool, asleep: bool, tag: nat)
    requires Running(f, table, trans, reused, asleep) && tag < |table|
    ensures Running(f, LeftTable(table, tag), trans, reused, asleep)
  {
    hide Running, LeftTable;
    forall t | NoClient(table, t) ensures NoClient(LeftTable(table, tag), t) {
      NoClientLeft(table, tag, t);
    }
    hide NoClient;
    TableRuns(f, table, LeftTable(table, tag), trans, reused, asleep);
  }

  lemma {:induction false} PushedBackRuns(
      f: Floor, u: Unit, table: seq<Slot>, trans: map<TransId, Trans>, reused: bool, asleep: bool)
    requires Running(f, table, trans, reused, asleep) && u.hasDest
    ensures var g := f.(raw := f.raw + [u]);
      && g.AllMarks() == f.AllMarks() + multiset{MarkOf(u)}
      && Running(g, table, trans, reused, asleep || !g.Awake())
  {
    var g := f.(raw := f.raw + [u]);
    hide Floor.Orderly, Floor.Awake, Floor.AllMarks, NoneCancelled, NoMoreDoomed;
    PushKeeps(f, u);
    if !reused {
      ClearOn(table, f, g);
    }
  }

  lemma {:induction false} EventRuns(f: Floor, g: Floor, table: seq<Slot>, trans: map<TransId, Trans>, reused: bool, asleep: bool)
    requires Running(f, table, trans, reused, asleep) && g.Orderly() && g.Awake()
    requires forall t :: g.Doomed(t) ==> f.Doomed(t)
    ensures Running(g, table, trans, reused, asleep)
  {
    hide Floor.Orderly, Floor.Awake, Floor.Doomed;
    RunsOn(f, g, table, trans, reused, asleep);
  }

  lemma {:induction false} OneTold(trans: map<TransId, Trans>, c: TransId, state: UnitState, requeued: bool)
    requires c in trans
    ensures var after := AfterHandBack(trans[c], state, requeued);
      && Told(trans, trans[c := after], c, [HandBack(state, requeued)])
      && (after.itemNum == 0 ==> after.state.Finished?)
  {
  }

  /** A transaction that queues a unit again does not finish. */
  lemma {:induction false} LeftToCome(t: Trans, state: UnitState, requeued: bool)
    requires t.itemNum > 0
    ensures requeued ==> AfterHandBack(t, state, requeued).itemNum > 0
    ensures t.state.Executing? ==>
      (AfterHandBack(t, state, requeued).state.Finished? <==> AfterHandBack(t, state, requeued).itemNum == 0)
  {
  }

  lemma {:induction false} NobodyBegun(trans: map<TransId, Trans>)
    ensures Begun(trans, trans, [])
  {
  }

  lemma {:induction false} NobodyTold(trans: map<TransId, Trans>, item: Unit, r: Reaction)
    ensures item.owner in trans && trans[item.owner].state.Canceled? ==> HandedBack(trans, trans, item, r)
  {
    EvolvesSelf(trans);
  }

  lemma {:induction false} OwnerTold(before: map<TransId, Trans>, after: map<TransId, Trans>, item: Unit, r: Reaction)
    requires Evolves(before, after) && item.owner in before && item.owner in after && before[item.owner].state.Executing?
    requires Told(before, after, item.owner, [HandBack(item.state, Requeues(item, r))])
    requires after[item.owner] == AfterHandBack(before[item.owner], item.state, Requeues(item, r))
    requires Begun(before[item.owner := after[item.owner]], after, Followers(after[item.owner], r))
    ensures HandedBack(before, after, item, r)
  {
    hide Evolves, Told, Requeues, AfterHandBack, Begun;
  }

  lemma {:induction false} PoppedRuns(f: Floor, table: seq<Slot>, trans: map<TransId, Trans>, reused: bool, asleep: bool)
    requires Running(f, table, trans, reused, asleep) && f.products != []
    ensures var u, g := f.products[0], f.(products := f.products[1..]);
      && Running(g, table, trans, reused, asleep) && f.AllMarks() == g.AllMarks() + multiset{MarkOf(u)}
      && Conveyed(u.state) && (u.state == Cancelled && !reused ==> NoClient(table, u.tag))
  {
    hide Floor.AllMarks, Floor.Orderly, Floor.Awake, Floor.Doomed, NoneCancelled, NoClient, Conveyed;
    ProductTaken(f);
    RunsOn(f, f.(products := f.products[1..]), table, trans, reused, asleep);
  }

  /** The floor after a client with this tag was cancelled, if the tag is that of a slot. */
  function FloorAfterCancel(f: Floor, tag: nat, slots: nat, ms: seq<seq<Move>>): Floor
    requires |ms| == |f.raw|
  {
    if tag < slots && tag < 256 then Kept(Notified(f.(raw := []), Word(CANCEL, tag)), f.raw, tag, ms) else f
  }

  lemma {:induction false} KeptHead(f: Floor, units: seq<Unit>, tag: Tag, ms: seq<seq<Move>>, i: nat)
    requires i < |units| == |ms|
    ensures var g := AfterMoves(f, ms[i]);
      Kept(f, units[i..], tag, ms[i..]) ==
      Kept(if units[i].tag == tag then g else g.(raw := g.raw + [units[i]]), units[i + 1..], tag, ms[i + 1..])
  {
    assert units[i..][1..] == units[i + 1..] && ms[i..][1..] == ms[i + 1..];
  }

  lemma {:induction false} KeptEnds(f: Floor, units: seq<Unit>, tag: Tag, ms: seq<seq<Move>>)
    requires |units| == |ms|
    ensures Kept(f, units[|units|..], tag, ms[|units|..]) == f && CountTag(units[|units|..], tag) == 0
  {
  }

  lemma {:induction false} TrimRuns(f: Floor, table: seq<Slot>, trans: map<TransId, Trans>, reused: bool, asleep: bool)
    requires Running(f, table, trans, reused, asleep)
    ensures Running(f, Trim(table), trans, reused, asleep)
  {
    TrimShortens(table);
    hide Trim, Running;
    TableRuns(f, table, Trim(table), trans, reused, asleep);
  }

  lemma {:induction false} ForgetRuns(
      f: Floor, g: Floor, table: seq<Slot>, trans: map<TransId, Trans>, reused: bool, asleep: bool, tag: Tag)
    requires Running(f, table, trans, reused, asleep) && tag < |table| && g.Orderly() && g.Awake()
    requires forall t :: g.Doomed(t) ==> f.Doomed(t) || Cancels(Word(CANCEL, tag), t)
    ensures Running(g, table[tag := table[tag].(client := None)], trans, reused, asleep)
  {
    WordsArePlain(Inactive(0), tag);
    hide Floor.Orderly, Floor.Awake, Floor.Doomed, NoneCancelled, Cancels, Word;
    if !reused {
      forall t | g.Doomed(t) ensures NoClient(table[tag := table[tag].(client := None)], t) {
        assert t != tag ==> NoClient(table, t);
      }
    }
  }

  lemma {:induction false} RunningTells(f: Floor, table: seq<Slot>, trans: map<TransId, Trans>, reused: bool, asleep: bool)
    requires Running(f, table, trans, reused, asleep)
    ensures f.Orderly() && (!reused ==> NoneCancelled(trans)) && (!asleep ==> f.Awake())
  {
  }

  /** No unit is concerned by the event. */
  predicate Untouched(semi: seq<Unit>, e: MediaEvent) {
    forall i :: 0 <= i < |semi| ==> MediaVerdict(e, semi[i]).None?
  }

  /** A unit goes back to the raw material after the workers' moves. */
  function GoneBack(f: Floor, u: Unit, r: Reaction): Floor {
    var g := AfterMoves(f, r.moves);
    g.(raw := g.raw + [u])
  }

  function AllGoneBack(f: Floor, units: seq<Unit>, rs: seq<Reaction>): Floor
    requires |units| == |rs|
    decreases units
  {
    if units == [] then f else AllGoneBack(GoneBack(f, units[0], rs[0]), units[1..], rs[1..])
  }

  lemma {:induction false} AllGoneBackEnds(f: Floor, units: seq<Unit>, rs: seq<Reaction>)
    requires |units| == |rs|
    ensures AllGoneBack(f, units[|units|..], rs[|units|..]) == f && Marks(units[|units|..]) == multiset{}
  {
  }

  lemma {:induction false} SettleBegins(trans: map<TransId, Trans>, semi: seq<Unit>, e: MediaEvent, rs: seq<Reaction>)
    requires |semi| == |rs|
    ensures semi[0..] == semi && rs[0..] == rs && Evolves(trans, trans) && Answered(trans, trans, semi, e, rs, 0)
  {
    EvolvesSelf(trans);
  }

  lemma {:induction false} SettleOneFacts(f: Floor, semi: seq<Unit>, e: MediaEvent, rs: seq<Reaction>, i: nat)
    requires i < |semi| == |rs|
    ensures var u := semi[i];
      && (MediaVerdict(e, u).Some? ==> Conveyed(MediaVerdict(e, u).value) && MediaVerdict(e, u).value != Cancelled)
      && (Untouched(semi, e) ==> MediaVerdict(e, u).None?) && (NoneStarted(rs) ==> rs[i].started == [])
      && (Equipped(semi) ==> u.hasDest)
      && AllGoneBack(f, semi[i..], rs[i..]) == AllGoneBack(GoneBack(f, u, rs[i]), semi[i + 1..], rs[i + 1..])
  {
    assert semi[i..][1..] == semi[i + 1..] && rs[i..][1..] == rs[i + 1..];
  }

  /** The next tag is given out while the order to cancel it still waits in some worker's
      queue. */
  ghost predicate GivesLate(f: Floor, table: seq<Slot>) {
    HasRoom(table) && f.CancelWaits(FreeSlot(table))
  }

  /** The floor after a request, if there was room for it. */
  function FloorAfterAttach(f: Floor, table: seq<Slot>, units: seq<Unit>, moves: seq<Move>): Floor {
    if HasRoom(table) && FreeSlot(table) < MAX_SLOTS then
      Notified(Pushed(f, units, FreeSlot(table), moves), Word(NEW_ITEM, 0))
    else f
  }

  /** The floor after a unit was queued again. */
  function FloorAfterRequeue(f: Floor, item: Unit, r: Reaction): Floor {
    Notified(Pushed(f, [item.(dest := r.newDest, hasDest := true)], item.tag, r.moves), Word(NEW_ITEM, 0))
  }

  /** Queueing a unit again sends exactly this unit to work, from its source to the new
      destination, which is set; every worker will come to it. */
  lemma {:induction false} RequeueSendsUnit(f: Floor, item: Unit, r: Reaction)
    requires f.Orderly()
    ensures var g := FloorAfterRequeue(f, item, r);
      && g.Orderly() && g.Awake() && g.AllMarks() == f.AllMarks() + multiset{MarkOf(item)}
      && forall e :: g.Has(e) <==> f.Has(e) || e == Errand(item.tag, item.owner, item.autoDest, item.src, r.newDest)
  {
    var u := item.(dest := r.newDest, hasDest := true);
    var pushed := Pushed(f, [u], item.tag, r.moves);
    OneTagged(u, item.tag);
    hide Floor.Orderly, Floor.Awake, Floor.AllMarks, Floor.Has, Pushed, Notified, NoMoreDoomed, Marks, Tagged;
    RequestedRuns(f, [u], item.tag, r.moves);
    forall e: Errand
      ensures Notified(pushed, Word(NEW_ITEM, 0)).Has(e) <==> f.Has(e) || e == ErrandOf(u)
    {
      PushedAddsErrand(f, u, item.tag, r.moves, e);
      MessageKeepsErrands(pushed, Word(NEW_ITEM, 0), e);
    }
  }

  /** What a hand-back leaves on the floor: the unit if it is queued again, and nothing new
      if it is not and no transaction starts. */
  predicate FloorSettled(before: Floor, after: Floor, requeued: bool, item: Unit, r: Reaction) {
    && (requeued ==> after == FloorAfterRequeue(before, item, r))
    && (!requeued && r.started == [] ==> after == before)
  }

  /** The unit's transaction waits for it and queues it again. */
  predicate QueuedAgain(trans: map<TransId, Trans>, item: Unit, r: Reaction) {
    item.owner in trans && trans[item.owner].state.Executing? && Requeues(item, r)
  }

  class ConveyWorkshop {
    var table: seq<Slot>
    var raw: seq<Unit>
    var workers: seq<Worker>
    var products: seq<Unit>
    var trans: map<TransId, Trans>

    // history: see Running
    ghost var reused: bool
    ghost var asleep: bool

    ghost function View(): Floor
      reads this
    {
      Floor(raw, workers, products)
    }

    /** The units in the queues and with the workers. */
    ghost function Live(): multiset<Mark>
      reads this
    {
      View().AllMarks()
    }

    /** `extra` are the units the main thread has in hand. */
    ghost predicate Counted(extra: multiset<Mark>)
      reads this
    {
      Matches(table, Live() + extra) && |table| <= MAX_SLOTS
    }

    ghost predicate Goes()
      reads this
    {
      Running(View(), table, trans, reused, asleep)
    }

    /** `mid` is the slot whose client is being told, and `but` the transaction whose
        callback has a unit in hand. */
    ghost predicate Inv(extra: multiset<Mark>, mid: int, but: Option<TransId>)
      reads this
    {
      Sound(table, trans, Live() + extra, mid, but) && Goes()
    }

    ghost predicate Valid()
      reads this
    {
      Inv(multiset{}, -1, None)
    }

    constructor (waiting: map<TransId, Trans>)
      requires AllAccounts(waiting, None) && forall c <- waiting :: waiting[c].state.NotBegin?
      ensures Valid() && table == [] && trans == waiting && !reused && !asleep
      ensures raw == [] && products == [] && workers == seq(CONCURRENCY, _ => IDLE_WORKER)
    {
      table, raw, products, trans := [], [], [], waiting;
      workers := seq(CONCURRENCY, _ => IDLE_WORKER);
      reused, asleep := false, false;
      new;
      NobodyHolds(workers);
      assert NoneCancelled(trans) by {
        assert forall c <- trans :: Books(trans[c], false);
      }
      assert Live() + multiset{} == multiset{};
    }

    // ------------------------------------------------------------ the workers

    /** The workers' steps between two steps of the main thread. */
    method Workers(moves: seq<Move>)
      modifies this`raw, this`workers, this`products
      ensures View() == AfterMoves(old(View()), moves)
    {
      hide AfterMove;
      for i := 0 to |moves|
        invariant AfterMoves(View(), moves[i..]) == AfterMoves(old(View()), moves)
      {
        assert moves[i..][0] == moves[i] && moves[i..][1..] == moves[i + 1..];
        Step(moves[i]);
      }
    }

    method Step(m: Move)
      modifies this`raw, this`workers, this`products
      ensures View() == AfterMove(old(View()), m)
    {
      if m.w < |workers| {
        match m {
          case Read(w) => ReadMessage(w);
          case Take(w) => TakeMaterial(w);
          case Look(w) => LookForEvent(w);
          case End(w, ok) => EndMaterial(w, ok);
        }
      }
    }

    /** A waiting worker reads its next message. */
    method ReadMessage(w: nat)
      requires w < |workers|
      modifies this`workers
      ensures View() == AfterMove(old(View()), Read(w))
    {
      var x := workers[w];
      if x.mode == Waiting && |x.inbox| > 0 {
        var kind := x.inbox[0] / 0x1_0000;
        var mode := x.mode;
        if kind == NEW_ITEM {
          mode := Looping;
        } else if kind == STOP {
          mode := Quit;
        }
        workers := workers[w := Worker(mode, x.held, x.inbox[1..])];
      }
    }

    /** A worker takes the next raw unit, or waits again if there is none. */
    method TakeMaterial(w: nat)
      requires w < |workers|
      modifies this`raw, this`workers
      ensures View() == AfterMove(old(View()), Take(w))
    {
      var x := workers[w];
      if x.mode == Looping && x.held == None {
        if |raw| > 0 {
          workers := workers[w := x.(held := Some(raw[0].(state := OnGoing)))];
          raw := raw[1..];
        } else {
          workers := workers[w := x.(mode := Waiting)];
        }
      }
    }

    /** The inspector, which the ways of conveying call between two pieces. */
    method LookForEvent(w: nat)
      requires w < |workers|
      modifies this`raw, this`workers, this`products
      ensures View() == AfterMove(old(View()), Look(w))
    {
      hide Judge;
      var x := workers[w];
      if x.held.Some? && |x.inbox| > 0 {
        workers := workers[w := x.(inbox := x.inbox[1..])];
        var verdict := Judge(x.held.value, x.inbox[0]);
        if verdict.StopIn? {
          PutMaterial(w, verdict.state);
        }
      }
    }

    method EndMaterial(w: nat, ok: bool)
      requires w < |workers|
      modifies this`raw, this`workers, this`products
      ensures View() == AfterMove(old(View()), End(w, ok))
    {
      if workers[w].held.Some? {
        PutMaterial(w, if ok then Done else Failed);
      }
    }

    /** The end of one turn of work_routine. */
    method PutMaterial(w: nat, state: UnitState)
      requires w < |workers| && workers[w].held.Some?
      modifies this`raw, this`workers, this`products
      ensures View() == Finish(old(View()), w, state)
    {
      var x := workers[w];
      var material := Stopped(x.held.value, state);
      if state == NoWorkload {
        workers := workers[w := x.(held := None, mode := Quit)];
        raw := raw + [material];
      } else {
        workers := workers[w := x.(held := None)];
        products := products + [material];
      }
    }

    /** Sends a message to every worker. */
    method Notify(word: nat)
      modifies this`workers
      ensures View() == Notified(old(View()), word)
    {
      MessagedAt(workers, word);
      for i := 0 to |workers|
        invariant |workers| == |old(workers)|
        invariant forall k :: 0 <= k < |workers| ==>
          workers[k] == if k < i then old(workers)[k].(inbox := old(workers)[k].inbox + [word]) else old(workers)[k]
      {
        workers := workers[i := workers[i].(inbox := workers[i].inbox + [word])];
      }
      assert workers == Messaged(old(workers), word);
    }

    /** The workers go on; whatever they do, every count stays. */
    method LetWork(moves: seq<Move>)
      requires Goes()
      modifies this`raw, this`workers, this`products
      ensures View() == AfterMoves(old(View()), moves) && Live() == old(Live()) && Goes()
    {
      hide Running, Floor.AllMarks, AfterMoves;
      MovesRun(View(), moves, table, trans, reused, asleep);
      MovesKeepMarks(View(), moves);
      Workers(moves);
    }

    // ------------------------------------------------------------- requests

    method AttachRequest(client: Option<TransId>, units: seq<Unit>, moves: seq<Move>, ghost extra: multiset<Mark>)
      returns (ret: bool, tag: nat)
      requires Counted(extra) && Goes() && (client.Some? ==> Mine(units, client.value)) && Equipped(units)
      modifies this`table, this`raw, this`workers, this`products, this`reused
      ensures ret <==> units != [] && client.Some? && HasRoom(old(table))
      ensures !ret ==> unchanged(this)
      ensures ret ==> tag == FreeSlot(old(table)) && table == PutSlot(old(table), tag, Slot(client, |units|, client.value))
      ensures ret ==> tag < MAX_SLOTS && forall m :: m in old(Live()) + extra ==> m.tag != tag
      ensures ret ==> View() == Notified(Pushed(old(View()), units, tag, moves), Word(NEW_ITEM, 0))
      ensures ret ==> reused == (old(reused) || old(View()).CancelWaits(tag))
      ensures Counted(extra) && Goes()
    {
      ret, tag := false, MAX_SLOTS;
      if |units| == 0 || client == None {
        return;
      }
      var i := FindFree();
      if i == |table| && |table| >= MAX_SLOTS {
        return;
      }
      FreeTagIsUnused(table, Live() + extra, client.value, |units|);
      tag := i;
      Attach(client.value, units, tag, moves, extra);
      ret := true;
    }

    method FindFree() returns (i: nat)
      ensures i == FreeSlot(table)
    {
      i := 0;
      while i < |table| && table[i].num != 0
        invariant i <= |table| && FreeSlot(table) == i + FreeSlot(table[i..])
      {
        assert table[i..][1..] == table[i + 1..];
        i := i + 1;
      }
    }

    /** Gives an unused tag to a client. */
    method Attach(client: TransId, units: seq<Unit>, tag: Tag, moves: seq<Move>, ghost extra: multiset<Mark>)
      requires Counted(extra) && Goes() && Mine(units, client) && Equipped(units)
      requires tag <= |table| && tag < MAX_SLOTS && forall m :: m in Live() + extra ==> m.tag != tag
      requires Matches(PutSlot(table, tag, Slot(Some(client), |units|, client)), Live() + extra + multiset{}[Mark(tag, client) := |units|])
      modifies this`table, this`raw, this`workers, this`products, this`reused
      ensures table == PutSlot(old(table), tag, Slot(Some(client), |units|, client))
      ensures View() == Notified(Pushed(old(View()), units, tag, moves), Word(NEW_ITEM, 0))
      ensures reused == (old(reused) || old(View()).CancelWaits(tag))
      ensures Counted(extra) && Goes()
    {
      hide Running, Floor.AllMarks, Floor.CancelWaits, Matches, Notified, Pushed, Word;
      Attached(View(), table, trans, reused, asleep, client, units, tag, moves, extra);
      reused := reused || View().CancelWaits(tag);
      if tag < |table| {
        table := table[tag := Slot(Some(client), |units|, client)];
      } else {
        table := table + [Slot(Some(client), |units|, client)];
      }
      PushAll(units, tag, moves);
      Notify(Word(NEW_ITEM, 0));
    }

    /** Pushes the units of a request while the workers are already at them. */
    method PushAll(units: seq<Unit>, tag: Tag, moves: seq<Move>)
      modifies this`raw, this`workers, this`products
      ensures View() == Pushed(old(View()), units, tag, moves)
    {
      hide AfterMoves;
      for i := 0 to |units|
        invariant Pushed(View(), units[i..], tag, moves) == Pushed(old(View()), units, tag, moves)
      {
        assert units[i..][0] == units[i] && units[i..][1..] == units[i + 1..];
        raw := raw + [units[i].(tag := tag)];
        Workers(moves);
      }
    }

    method AddNewUnit(client: Option<TransId>, cu: Unit, moves: seq<Move>, ghost extra: multiset<Mark>) returns (ret: bool)
      requires Counted(extra) && Goes() && cu.hasDest
      requires SlotOf(table, client) < |table| ==> table[SlotOf(table, client)].owner == cu.owner
      modifies this`table, this`raw, this`workers, this`products
      ensures ret <==> SlotOf(old(table), client) < |old(table)|
      ensures !ret ==> unchanged(this)
      ensures ret ==> var t := SlotOf(old(table), client);
        && t < MAX_SLOTS
        && table == OneMoreRequest(old(table), t)
        && View() == Notified(Pushed(old(View()), [cu], t, moves), Word(NEW_ITEM, 0))
      ensures Counted(extra) && Goes()
    {
      var tag := FindClient(client);
      hide Floor.AllMarks, Matches, SlotOf, Running, Notified, Pushed, Word;
      if tag == |table| {
        return false;
      }
      RequestMore(tag, cu, moves, extra);
      return true;
    }

    method RequestMore(tag: Tag, cu: Unit, moves: seq<Move>, ghost extra: multiset<Mark>)
      requires Counted(extra) && Goes() && tag < |table| && table[tag].owner == cu.owner && cu.hasDest
      modifies this`table, this`raw, this`workers, this`products
      ensures table == OneMoreRequest(old(table), tag)
      ensures View() == Notified(Pushed(old(View()), [cu], tag, moves), Word(NEW_ITEM, 0))
      ensures Counted(extra) && Goes()
    {
      hide Running, Floor.AllMarks, Matches, Notified, Pushed, Word;
      OneRequested(View(), table, trans, reused, asleep, cu, tag, moves, extra);
      table := table[tag := table[tag].(num := table[tag].num + 1)];
      PushAll([cu], tag, moves);
      Notify(Word(NEW_ITEM, 0));
    }

    method FindClient(client: Option<TransId>) returns (tag: nat)
      ensures tag == SlotOf(table, client)
    {
      tag := 0;
      while tag < |table| && table[tag].client != client
        invariant tag <= |table| && SlotOf(table, client) == tag + SlotOf(table[tag..], client)
      {
        assert table[tag..][1..] == table[tag + 1..];
        tag := tag + 1;
      }
    }

    // ------------------------------------------------------ the transactions

    /** Executes a transaction that has not begun. */
    method Execute(id: TransId, moves: seq<Move>, ghost extra: multiset<Mark>, ghost mid: int, ghost but: Option<TransId>)
      returns (started: bool)
      requires Inv(extra, mid, but) && id in trans && trans[id].state.NotBegin?
      modifies this
      ensures Inv(extra, mid, but) && Evolves(old(trans), trans) && |table| >= |old(table)|
      ensures started <==> old(trans[id]).itemNum > 0
      ensures asleep == old(asleep) && (reused <==> old(reused) || (started && GivesLate(old(View()), old(table))))
      ensures started ==>
        && table == TableAfterAttach(old(table), id, old(trans)[id].itemNum)
        && trans == old(trans)[id := TransAfterAttach(old(table), old(trans)[id])]
        && View() == FloorAfterAttach(old(View()), old(table), old(trans)[id].list, moves)
      ensures !started ==>
        && table == old(table) && View() == old(View())
        && trans == old(trans)[id := old(trans)[id].(state := Finished(false))]
    {
      hide Running, Evolves, AllAccounts, ClientsAgree, Matches, Floor.AllMarks, Trimmed, FloorAfterAttach, TableAfterAttach;
      var t := trans[id];
      if t.itemNum == 0 {
        NothingToDo(table, trans, mid, but, id);
        BooksRun(View(), table, trans, reused, asleep, id, t.(state := Finished(false)));
        trans := trans[id := t.(state := Finished(false))];
        return false;
      }
      Begin(id, moves, extra, mid, but);
      return true;
    }

    /** What attach_request returns is not looked at: a transaction that finds no room
        is executing all the same. */
    method Begin(id: TransId, moves: seq<Move>, ghost extra: multiset<Mark>, ghost mid: int, ghost but: Option<TransId>)
      requires Inv(extra, mid, but) && id in trans && trans[id].state.NotBegin? && trans[id].itemNum > 0
      modifies this
      ensures Inv(extra, mid, but) && Evolves(old(trans), trans) && |table| >= |old(table)|
      ensures table == TableAfterAttach(old(table), id, old(trans)[id].itemNum)
      ensures trans == old(trans)[id := TransAfterAttach(old(table), old(trans)[id])]
      ensures View() == FloorAfterAttach(old(View()), old(table), old(trans)[id].list, moves)
      ensures asleep == old(asleep) && (reused <==> old(reused) || GivesLate(old(View()), old(table)))
    {
      hide Floor.CancelWaits;
      hide Running, Evolves, AllAccounts, ClientsAgree, Matches, Floor.AllMarks, Trimmed, HasRoom, FreeSlot, Pushed, Notified;
      var t := trans[id];
      BeginKeeps(table, trans, mid, but, id);
      var ok, tag := AttachRequest(Some(id), t.list, moves, extra);
      var t' := t.(state := Executing, slot := if ok then Some(tag) else None);
      BooksRun(View(), table, trans, reused, asleep, id, t');
      trans := trans[id := t'];
    }

    /** A unit of transaction c came back: the callback of the transaction. */
    method UnitFinish(c: TransId, item: Unit, r: Reaction, ghost extra: multiset<Mark>, ghost but: Option<TransId>)
      requires Counted(extra) && Goes() && AllAccounts(trans, but)
      requires Conveyed(item.state) && (item.state == Cancelled ==> reused)
      requires item.tag < |table| && table[item.tag].client == Some(c) && table[item.tag].owner == item.owner
      requires Trimmed(OneMoreRequest(table, item.tag), -1) && ClientsAgree(OneMoreRequest(table, item.tag), trans, -1)
      modifies this
      ensures Inv(extra, item.tag, but) && |table| >= |old(table)| && Evolves(old(trans), trans)
      ensures c in old(trans) && c in trans && trans[c] == AfterHandBack(old(trans)[c], item.state, Requeues(item, r))
      ensures Told(old(trans), trans, c, [HandBack(item.state, Requeues(item, r))])
      ensures FloorSettled(old(View()), View(), Requeues(item, r), item, r)
      ensures Begun(old(trans)[c := trans[c]], trans, Followers(trans[c], r))
      ensures asleep == old(asleep) && (r.started == [] ==> reused == old(reused))
    {
      hide Floor.AllMarks, Running, Matches, ClientsAgree, AllAccounts, Trimmed, Evolves, Conveyed, Told, AfterHandBack,
        FloorAfterRequeue, Begun;
      HandBackKeeps(table, trans, but, item.tag, c, item.state, Requeues(item, r));
      OnlySlot(table, trans, item.tag, c);
      OneTold(trans, c, item.state, Requeues(item, r));
      LeftToCome(trans[c], item.state, Requeues(item, r));
      hide Requeues;
      BookHandBack(c, item, r, extra);
      NobodyBegun(trans);
      if trans[c].itemNum == 0 {
        ghost var before := trans;
        StartMore(c, r, extra, item.tag, but);
        EvolvesOn(old(trans), before, trans);
        ToldOn(old(trans), before, trans, c, [HandBack(item.state, Requeues(item, r))]);
      }
    }

    /** The part of the callback that counts: the unit is queued again or it is settled. */
    method BookHandBack(c: TransId, item: Unit, r: Reaction, ghost extra: multiset<Mark>)
      requires Counted(extra) && Goes() && c in trans && trans[c].itemNum > 0 && trans[c].state.Executing?
      requires item.state == Cancelled ==> reused
      requires item.tag < |table| && SlotOf(table, Some(c)) == item.tag && table[item.tag].owner == item.owner
      modifies this
      ensures Counted(extra) && Goes()
      ensures table == if Requeues(item, r) then OneMoreRequest(old(table), item.tag) else old(table)
      ensures trans == old(trans)[c := AfterHandBack(old(trans)[c], item.state, Requeues(item, r))]
      ensures View() == if Requeues(item, r) then FloorAfterRequeue(old(View()), item, r) else old(View())
      ensures asleep == old(asleep) && reused == old(reused)
    {
      hide Floor.AllMarks, Matches, SlotOf, Running, NoCancelled, FloorAfterRequeue;
      var t := trans[c];
      BooksRun(View(), table, trans, reused, asleep, c, t.(itemNum := t.itemNum - 1));
      trans := trans[c := t.(itemNum := t.itemNum - 1)];
      BookRest(c, item, r, extra);
    }

    /** What the callback does once the unit is taken off the units to come. */
    method BookRest(c: TransId, item: Unit, r: Reaction, ghost extra: multiset<Mark>)
      requires Counted(extra) && Goes() && c in trans && trans[c].state.Executing?
      requires item.state == Cancelled ==> reused
      requires item.tag < |table| && SlotOf(table, Some(c)) == item.tag && table[item.tag].owner == item.owner
      modifies this
      ensures Counted(extra) && Goes()
      ensures table == if Requeues(item, r) then OneMoreRequest(old(table), item.tag) else old(table)
      ensures var t := old(trans)[c];
        trans == old(trans)[c := AfterHandBack(t.(itemNum := t.itemNum + 1), item.state, Requeues(item, r))]
      ensures View() == if Requeues(item, r) then FloorAfterRequeue(old(View()), item, r) else old(View())
      ensures asleep == old(asleep) && reused == old(reused)
    {
      hide Floor.AllMarks, Matches, SlotOf, Running, NoCancelled, FloorAfterRequeue;
      var t := trans[c];
      var fail, requeued := QueueAgain(c, item, r, extra);
      var t' := t.(handed := t.handed + [HandBack(item.state, requeued)]);
      if requeued {
        t' := t'.(itemNum := t'.itemNum + 1);
      }
      if fail {
        t' := t'.(failNum := t'.failNum + 1);
      }
      if t'.itemNum == 0 {
        t' := t'.(state := Finished(t'.failNum == 0));
      }
      HandedRuns(View(), table, trans, reused, asleep, c, HandBack(item.state, requeued), t');
      trans := trans[c := t'];
    }

    /** The switch over the unit's state: did it fail, was it queued again? */
    method QueueAgain(c: TransId, item: Unit, r: Reaction, ghost extra: multiset<Mark>)
      returns (fail: bool, requeued: bool)
      requires Counted(extra) && Goes()
      requires item.tag < |table| && SlotOf(table, Some(c)) == item.tag && table[item.tag].owner == item.owner
      modifies this`table, this`raw, this`workers, this`products
      ensures Counted(extra) && Goes()
      ensures requeued == Requeues(item, r) && fail == IsFailure(HandBack(item.state, requeued))
      ensures table == if requeued then OneMoreRequest(old(table), item.tag) else old(table)
      ensures View() == if requeued then FloorAfterRequeue(old(View()), item, r) else old(View())
    {
      hide Floor.AllMarks, Matches, SlotOf, Running, Pushed, Notified;
      fail, requeued := false, false;
      if item.state == Failed || item.state == SrcVanish || item.state == DestVanish {
        fail := true;
      } else if item.state == CommonDestVanish || item.state == CommonDestChange {
        if !item.autoDest {
          fail := true;
        } else if r.destReady {
          requeued := AddNewUnit(Some(c), item.(dest := r.newDest, hasDest := true), r.moves, extra);
        } else {
          fail := true;
        }
      }
    }

    /** The transaction manager's reaction to the end of transaction c. */
    method StartMore(c: TransId, r: Reaction, ghost extra: multiset<Mark>, ghost mid: int, ghost but: Option<TransId>)
      requires Inv(extra, mid, but) && c in trans && trans[c].state.Finished?
      modifies this
      ensures Inv(extra, mid, but) && |table| >= |old(table)| && Evolves(old(trans), trans)
      ensures c in trans && trans[c] == old(trans)[c] && Told(old(trans), trans, c, [])
      ensures Begun(old(trans), trans, r.started)
      ensures asleep == old(asleep) && (r.started == [] ==> reused == old(reused) && View() == old(View()))
    {
      EvolvesSelf(trans);
      NobodyBegun(trans);
      assert Told(trans, trans, c, []) && r.started[..|r.started|] == r.started;
      hide *;
      for i := 0 to |r.started|
        invariant Inv(extra, mid, but) && |table| >= |old(table)| && Evolves(old(trans), trans)
        invariant c in trans && trans[c] == old(trans)[c] && Told(old(trans), trans, c, [])
        invariant Begun(old(trans), trans, r.started[..i])
        invariant asleep == old(asleep) && (r.started == [] ==> reused == old(reused) && View() == old(View()))
      {
        ghost var before := trans;
        StartOne(c, r.started[i], r.moves, extra, mid, but);
        EvolvesOn(old(trans), before, trans);
        ToldOn(old(trans), before, trans, c, []);
        BegunOn(old(trans), before, trans, r.started, i);
      }
    }

    method StartOne(c: TransId, id: TransId, moves: seq<Move>, ghost extra: multiset<Mark>, ghost mid: int, ghost but: Option<TransId>)
      requires Inv(extra, mid, but) && c in trans && trans[c].state.Finished?
      modifies this
      ensures Inv(extra, mid, but) && |table| >= |old(table)| && Evolves(old(trans), trans)
      ensures c in trans && trans[c] == old(trans)[c] && Told(old(trans), trans, c, []) && asleep == old(asleep)
      ensures Begun(old(trans), trans, [id])
    {
      EvolvesSelf(trans);
      hide Inv, Evolves, GivesLate, TableAfterAttach, FloorAfterAttach;
      if id in trans && trans[id].state.NotBegin? {
        var _ := Execute(id, moves, extra, mid, but);
      }
    }

    // -------------------------------------------------- handing units back

    /** Hands a finished unit back: its owner, and nobody else, is told, unless it was
        cancelled. The slot is there, and it is still there when the callback returns. */
    method ItemDone(item: Unit, r: Reaction, ghost extra: multiset<Mark>, ghost but: Option<TransId>)
      requires Inv(extra + multiset{MarkOf(item)}, -1, but) && Conveyed(item.state)
      requires item.state == Cancelled && !reused ==> NoClient(table, item.tag)
      modifies this
      ensures Inv(extra, -1, but) && HandedBack(old(trans), trans, item, r)
      ensures FloorSettled(old(View()), View(), QueuedAgain(old(trans), item, r), item, r)
      ensures item.tag < |old(table)| && old(table)[item.tag].num > 0
      ensures asleep == old(asleep) && (r.started == [] ==> reused == old(reused))
    {
      hide Floor.AllMarks, Matches, ClientsAgree, AllAccounts, Trimmed, Running, HandedBack, Evolves, LeftTable, Conveyed,
        NoClient, FloorSettled, QueuedAgain;
      OneRequestLess(item, r, extra, but);
      SlotLeft(table, trans, item.tag, Live() + extra);
      LeftRuns(View(), table, trans, reused, asleep, item.tag);
      LeaveSlot(item.tag);
    }

    /** ConveyClient::item_done without what follows the callback. */
    method OneRequestLess(item: Unit, r: Reaction, ghost extra: multiset<Mark>, ghost but: Option<TransId>)
      requires Inv(extra + multiset{MarkOf(item)}, -1, but) && Conveyed(item.state)
      requires item.state == Cancelled && !reused ==> NoClient(table, item.tag)
      modifies this
      ensures Inv(extra, item.tag, but) && item.tag < |table| && HandedBack(old(trans), trans, item, r)
      ensures FloorSettled(old(View()), View(), QueuedAgain(old(trans), item, r), item, r)
      ensures item.tag < |old(table)| && old(table)[item.tag].num > 0
      ensures asleep == old(asleep) && (r.started == [] ==> reused == old(reused))
    {
      hide Floor.AllMarks, Running, Matches, ClientsAgree, AllAccounts, Trimmed, HandedBack, Evolves, Conveyed, Requeues,
        AfterHandBack, FloorAfterRequeue;
      var tag := item.tag;
      Regroup(Live(), extra, multiset{MarkOf(item)});
      TakenOff(table, trans, Live() + extra, MarkOf(item));
      TableRuns(View(), table, table[tag := table[tag].(num := table[tag].num - 1)], trans, reused, asleep);
      NobodyTold(trans, item, r);
      var client := table[tag].client;
      table := table[tag := table[tag].(num := table[tag].num - 1)];
      if client.Some? {
        UnitFinish(client.value, item, r, extra, but);
        OwnerTold(old(trans), trans, item, r);
      }
    }

    /** What follows the callback: a slot without requests is given up. */
    method LeaveSlot(tag: nat)
      requires tag < |table|
      modifies this`table
      ensures table == LeftTable(old(table), tag)
    {
      if table[tag].num == 0 {
        table := table[tag := table[tag].(client := None)];
      }
      if tag + 1 == |table| {
        EraseFrom(tag);
      }
    }

    /** Erases the slots without requests from the end of the table. */
    method EraseFrom(last: nat)
      requires last + 1 == |table|
      modifies this`table
      ensures table == Trim(old(table))
    {
      var tag: nat := last;
      while table[tag].num == 0
        invariant tag + 1 == |table| && Trim(table) == Trim(old(table))
        decreases tag
      {
        table := table[..tag];
        if tag == 0 {
          break;
        }
        tag := tag - 1;
      }
    }

    /** The event loop's turn: drains the products while the workers go on. */
    method Process(rs: seq<Reaction>)
      requires Valid()
      modifies this
      ensures Valid() && Evolves(old(trans), trans)
      ensures asleep == old(asleep) && (NoneStarted(rs) ==> reused == old(reused))
    {
      EvolvesSelf(trans);
      hide Evolves, Inv;
      for i := 0 to |rs|
        invariant Valid() && Evolves(old(trans), trans)
        invariant asleep == old(asleep) && (NoneStarted(rs) ==> reused == old(reused))
      {
        ghost var before := trans;
        var more := Turn(rs[i]);
        EvolvesOn(old(trans), before, trans);
        if !more {
          return;
        }
      }
    }

    method Turn(r: Reaction) returns (more: bool)
      requires Valid()
      modifies this
      ensures Valid() && Evolves(old(trans), trans)
      ensures !more ==> products == [] && trans == old(trans) && table == old(table)
      ensures asleep == old(asleep) && (r.started == [] ==> reused == old(reused))
    {
      EvolvesSelf(trans);
      hide Floor.AllMarks, Sound, Evolves, Running, AfterMoves;
      LetWork(r.moves);
      more := |products| > 0;
      if more {
        NextProduct(r);
      }
    }

    method NextProduct(r: Reaction)
      requires Valid() && products != []
      modifies this
      ensures Valid() && HandedBack(old(trans), trans, old(products)[0], r)
      ensures var item := old(products)[0];
        FloorSettled(old(View()).(products := old(products)[1..]), View(), QueuedAgain(old(trans), item, r), item, r)
      ensures asleep == old(asleep) && (r.started == [] ==> reused == old(reused))
    {
      hide Sound, HandedBack, Floor.AllMarks, Running, FloorSettled, QueuedAgain;
      var cuNext := PopProduct();
      NoneLeft(Live(), multiset{MarkOf(cuNext)});
      ItemDone(cuNext, r, multiset{}, None);
    }

    method PopProduct() returns (cu: Unit)
      requires products != [] && Goes()
      modifies this`products
      ensures cu == old(products)[0] && products == old(products)[1..]
      ensures old(Live()) == Live() + multiset{MarkOf(cu)} && Goes()
      ensures Conveyed(cu.state) && (cu.state == Cancelled && !reused ==> NoClient(table, cu.tag))
    {
      hide Floor.AllMarks, Running, NoClient, Conveyed;
      cu := products[0];
      PoppedRuns(View(), table, trans, reused, asleep);
      products := products[1..];
    }

    /** A unit that the main thread took out goes to the end of the raw material again, and
        nobody is told that there is some. */
    method PushBack(u: Unit)
      requires Goes() && u.hasDest
      modifies this`raw, this`asleep
      ensures raw == old(raw) + [u] && Live() == old(Live()) + multiset{MarkOf(u)} && Goes()
      ensures asleep == (old(asleep) || !View().Awake())
    {
      hide Floor.AllMarks, Running, Floor.Awake;
      PushedBackRuns(View(), u, table, trans, reused, asleep);
      raw := raw + [u];
      asleep := asleep || !View().Awake();
    }

    /** A raw unit that the main thread took out is handed back in the given state, or
        goes to the end of the raw material again. */
    method SettleRaw(u: Unit, verdict: Option<UnitState>, r: Reaction, ghost extra: multiset<Mark>, ghost but: Option<TransId>)
      requires Inv(extra + multiset{MarkOf(u)}, -1, but) && u.hasDest
      requires verdict.Some? ==> Conveyed(verdict.value) && verdict.value != Cancelled
      modifies this
      ensures Inv(extra, -1, but) && Evolves(old(trans), trans)
      ensures Told(old(trans), trans, u.owner, AnswersOf(old(trans), u, verdict, r))
      ensures r.started == [] ==> reused == old(reused)
      ensures verdict.Some? ==>
        var item := u.(state := verdict.value);
        FloorSettled(AfterMoves(old(View()), r.moves), View(), QueuedAgain(old(trans), item, r), item, r)
      ensures verdict.None? ==>
        && table == old(table) && trans == old(trans) && reused == old(reused)
        && View() == GoneBack(old(View()), u, r)
    {
      EvolvesSelf(trans);
      hide Floor.AllMarks, Sound, Evolves, Running, AfterMoves, Floor.Awake, FloorSettled;
      LetWork(r.moves);
      if verdict.Some? {
        ItemDone(u.(state := verdict.value), r, extra, but);
      } else {
        Regroup(Live(), extra, multiset{MarkOf(u)});
        Swap(Live(), extra, multiset{MarkOf(u)});
        PushBack(u);
      }
    }

    /** Goes through the raw material, taken out as a whole, while the workers go on
        with what comes back. Each transaction is told about exactly its own units. */
    method SettleAll(semi: seq<Unit>, e: MediaEvent, rs: seq<Reaction>, ghost but: Option<TransId>)
      requires |rs| == |semi| && Inv(Marks(semi), -1, but) && Equipped(semi)
      modifies this
      ensures Inv(multiset{}, -1, but) && Evolves(old(trans), trans)
      ensures Answered(old(trans), trans, semi, e, rs, |semi|)
      ensures NoneStarted(rs) ==> reused == old(reused)
      ensures Untouched(semi, e) ==>
        table == old(table) && trans == old(trans) && View() == AllGoneBack(old(View()), semi, rs)
    {
      SettleBegins(trans, semi, e, rs);
      hide *;
      for i := 0 to |semi|
        invariant Inv(Marks(semi[i..]), -1, but) && Evolves(old(trans), trans)
        invariant Answered(old(trans), trans, semi, e, rs, i)
        invariant NoneStarted(rs) ==> reused == old(reused)
        invariant Untouched(semi, e) ==> table == old(table) && trans == old(trans)
        invariant Untouched(semi, e) ==> AllGoneBack(View(), semi[i..], rs[i..]) == AllGoneBack(old(View()), semi, rs)
      {
        ghost var before := trans;
        MarksHead(semi, i);
        var u := semi[i];
        SettleOneFacts(View(), semi, e, rs, i);
        SettleRaw(u, MediaVerdict(e, u), rs[i], Marks(semi[i + 1..]), but);
        AnswersGrow(old(trans), before, trans, semi, e, rs, i);
      }
      AllGoneBackEnds(View(), semi, rs);
    }

    /** Takes the whole raw material out, which leaves the workers without any, and tells
        them of an event. */
    method TakeAllRaw(word: nat) returns (semi: seq<Unit>)
      requires View().Orderly() && Plain(word)
      modifies this`raw, this`workers
      ensures semi == old(raw) && Equipped(semi) && View() == Notified(old(View()).(raw := []), word)
      ensures old(Live()) + multiset{} == Live() + Marks(semi) && View().Orderly() && View().Awake()
      ensures forall t :: View().Doomed(t) ==> old(View()).Doomed(t) || Cancels(word, t)
    {
      semi := raw;
      AllTaken(View());
      NotifyKeeps(View().(raw := []), word);
      hide Floor.AllMarks, Floor.Orderly, Floor.Awake, Floor.Doomed, Cancels, Notified, Marks;
      raw := [];
      Notify(word);
    }

    /** A media event: workers and the clients of raw units are told. */
    method TellMedia(e: MediaEvent, rs: seq<Reaction>, ghost but: Option<TransId>)
      requires Inv(multiset{}, -1, but) && |rs| == |raw|
      modifies this
      ensures Inv(multiset{}, -1, but) && Evolves(old(trans), trans)
      ensures Answered(old(trans), trans, old(raw), e, rs, |old(raw)|)
      ensures NoneStarted(rs) ==> reused == old(reused)
      ensures Untouched(old(raw), e) ==>
        && table == old(table) && trans == old(trans)
        && View() == AllGoneBack(Notified(old(View()).(raw := []), WordOf(e)), old(raw), rs)
    {
      WordsArePlain(e, 0);
      assert View().Orderly();
      hide Sound, Floor.AllMarks, Floor.Orderly, Floor.Awake, Floor.Doomed, Evolves, Answered, Plain, Cancels, Notified, WordOf, Marks,
        NoneCancelled, Untouched, AllGoneBack, NoneStarted;
      var semi := TakeAllRaw(WordOf(e));
      EventRuns(old(View()), View(), table, trans, reused, asleep);
      SettleAll(semi, e, rs, but);
    }

    /** The current storage changed: auto-destined units are handed back. */
    method CurrentMediaChanged(current: Option<Priority>, rs: seq<Reaction>, ghost but: Option<TransId>)
      requires Inv(multiset{}, -1, but) && |rs| == |raw|
      modifies this
      ensures Inv(multiset{}, -1, but) && Evolves(old(trans), trans)
      ensures current == None ==> trans == old(trans) && table == old(table) && View() == old(View())
      ensures current != None ==>
        && Answered(old(trans), trans, old(raw), CurrentChanged(current.value), rs, |old(raw)|)
        && FailuresGrow(old(trans), trans, old(raw), CurrentChanged(current.value), rs)
      ensures NoneStarted(rs) ==> reused == old(reused)
    {
      EvolvesSelf(trans);
      hide Inv, Evolves, Answered;
      if current == None {
        return;
      }
      ghost var units := raw;
      TellMedia(CurrentChanged(current.value), rs, but);
      MediaFailures(old(trans), trans, units, CurrentChanged(current.value), rs);
    }

    /** A medium is not active any more: units from it or to it are handed back. */
    method MediaInactive(priority: Priority, rs: seq<Reaction>)
      requires Valid() && |rs| == |raw|
      modifies this
      ensures Valid() && Evolves(old(trans), trans)
      ensures Answered(old(trans), trans, old(raw), Inactive(priority), rs, |old(raw)|)
      ensures FailuresGrow(old(trans), trans, old(raw), Inactive(priority), rs)
      ensures NoneStarted(rs) ==> reused == old(reused)
      ensures Untouched(old(raw), Inactive(priority)) ==>
        && table == old(table) && trans == old(trans)
        && View() == AllGoneBack(Notified(old(View()).(raw := []), WordOf(Inactive(priority))), old(raw), rs)
    {
      ghost var units := raw;
      hide Inv, Evolves, Answered, Untouched, AllGoneBack, Notified;
      TellMedia(Inactive(priority), rs, None);
      MediaFailures(old(trans), trans, units, Inactive(priority), rs);
    }

    // ----------------------------------------------------------- cancelling

    /** TransLogConvey::cancel. What the workers hold of it comes back without a word. */
    method Cancel(c: TransId, ms: seq<seq<Move>>)
      requires Valid() && c in trans && |ms| == |raw|
      modifies this
      ensures Valid() && reused == old(reused)
      ensures trans == if old(trans)[c].state.Executing? then old(trans)[c := AfterCancel(old(trans)[c])] else old(trans)
      ensures old(trans)[c].state.Executing? ==>
        var tag := SlotOf(old(table), Some(c));
        && table == CancelTable(old(table), tag, CountTag(old(raw), tag))
        && View() == FloorAfterCancel(old(View()), tag, |old(table)|, ms)
    {
      hide Floor.AllMarks, Matches, ClientsAgree, Trimmed, AllAccounts, SlotOf, CountTag, Running, FloorAfterCancel, CancelTable;
      if trans[c].state.Executing? {
        CancelSound(table, trans, Live() + multiset{}, c, CountTag(raw, SlotOf(table, Some(c))));
        CancelClient(c, ms);
        BooksRun(View(), table, trans, reused, asleep, c, AfterCancel(trans[c]));
        trans := trans[c := trans[c].(itemNum := 0, state := Canceled)];
      }
    }

    /** Drops the raw units of a client and forgets the client. */
    method CancelClient(c: TransId, ms: seq<seq<Move>>)
      requires Counted(multiset{}) && Goes() && |ms| == |raw|
      modifies this`table, this`raw, this`workers, this`products, this`asleep
      ensures Counted(multiset{}) && Goes()
      ensures table == CancelTable(old(table), SlotOf(old(table), Some(c)), CountTag(old(raw), SlotOf(old(table), Some(c))))
      ensures View() == FloorAfterCancel(old(View()), SlotOf(old(table), Some(c)), |old(table)|, ms)
    {
      hide Floor.AllMarks, Matches, SlotOf, Trim, Marks, CountTag, Running, Kept, Notified, Word;
      var tag := FindClient(Some(c));
      if tag < |table| {
        Forget(tag, ms);
        if tag + 1 == |table| && table[tag].num == 0 {
          MatchesTrim(table, Live() + multiset{});
          TrimShortens(table);
          TrimRuns(View(), table, trans, reused, asleep);
          EraseFrom(tag);
        }
      }
    }

    method Forget(tag: Tag, ms: seq<seq<Move>>)
      requires Counted(multiset{}) && Goes() && |ms| == |raw|
      requires tag < |table|
      modifies this`table, this`raw, this`workers, this`products, this`asleep
      ensures Counted(multiset{}) && Goes()
      ensures table == ForgetClient(old(table), tag, LessBy(old(table)[tag].num, CountTag(old(raw), tag)))
      ensures View() == Kept(Notified(old(View()).(raw := []), Word(CANCEL, tag)), old(raw), tag, ms)
    {
      hide Floor.AllMarks, Floor.Orderly, Floor.Awake, Floor.Doomed, Matches, Marks, CountTag, Running, Kept, Notified, Plain,
        Cancels, Word;
      WordsArePlain(Inactive(0), tag);
      RunningTells(View(), table, trans, reused, asleep);
      var currentRaw := TakeAllRaw(Word(CANCEL, tag));
      ForgetMatches(table, Live() + Marks(currentRaw), tag);
      ForgetRuns(old(View()), View(), table, trans, reused, asleep, tag);
      table := table[tag := table[tag].(client := None)];
      DropUnits(currentRaw, tag, ms);
    }

    /** The loop of cancel_client. */
    method DropUnits(units: seq<Unit>, tag: Tag, ms: seq<seq<Move>>)
      requires |ms| == |units| && Goes() && tag < |table| && Counted(Marks(units)) && Equipped(units)
      modifies this`table, this`raw, this`workers, this`products, this`asleep
      ensures Counted(multiset{}) && Goes()
      ensures table == Fewer(old(table), tag, CountTag(units, tag))
      ensures View() == Kept(old(View()), units, tag, ms)
    {
      ghost var dropped: nat := 0;
      MarksEnds(units, tag);
      FewerAgain(table, tag, 0);
      assert ms[0..] == ms;
      hide Floor.AllMarks, Matches, Marks, CountTag, Fewer, Running, Kept;
      for i := 0 to |units|
        invariant Counted(Marks(units[i..])) && Goes() && |table| == |old(table)|
        invariant dropped + CountTag(units[i..], tag) == CountTag(units, tag)
        invariant table == Fewer(old(table), tag, dropped)
        invariant Kept(View(), units[i..], tag, ms[i..]) == Kept(old(View()), units, tag, ms)
      {
        MarksHead(units, i);
        CountHead(units, i, tag);
        KeptHead(View(), units, tag, ms, i);
        DropOrKeep(units[i], tag, ms[i], Marks(units[i + 1..]));
        if units[i].tag == tag {
          FewerAgain(old(table), tag, dropped);
          dropped := dropped + 1;
        }
      }
      KeptEnds(View(), units, tag, ms);
    }

    method DropOrKeep(u: Unit, tag: Tag, moves: seq<Move>, ghost extra: multiset<Mark>)
      requires Counted(extra + multiset{MarkOf(u)}) && Goes() && tag < |table| && u.hasDest
      modifies this`table, this`raw, this`workers, this`products, this`asleep
      ensures Counted(extra) && Goes() && |table| == |old(table)|
      ensures table == if u.tag == tag then Fewer(old(table), tag, 1) else old(table)
      ensures View() == var g := AfterMoves(old(View()), moves); if u.tag == tag then g else g.(raw := g.raw + [u])
    {
      hide Floor.AllMarks, Matches, Running, AfterMoves, Floor.Awake;
      LetWork(moves);
      Regroup(Live(), extra, multiset{MarkOf(u)});
      if u.tag == tag {
        CountedUnitHasSlot(table, Live() + extra, MarkOf(u));
        TableRuns(View(), table, table[tag := table[tag].(num := table[tag].num - 1)], trans, reused, asleep);
        table := table[tag := table[tag].(num := table[tag].num - 1)];
      } else {
        Swap(Live(), extra, multiset{MarkOf(u)});
        PushBack(u);
      }
    }

    // ---------------------------- a callback that changes the current storage

    /** The hand-back of a unit whose callback finds no current storage, looks for one and
        so makes the workshop hand the raw units back before it returns: pre_convey,
        check_media_change, current_media_changed. The slot of the callback stays the
        transaction's exactly if not all its other units come back for good meanwhile. Then
        all is as after any hand-back. Otherwise the transaction has ended although a unit
        of it is in hand, and item_done goes on with a slot that is erased or not its own. */
    method ItemDoneChanging(item: Unit, r: Reaction, current: Priority, rs: seq<Reaction>) returns (kept: bool)
      requires Inv(multiset{MarkOf(item)}, -1, None) && |rs| == |raw|
      requires (item.state == CommonDestVanish || item.state == CommonDestChange) && item.autoDest
      requires item.tag < |table| && table[item.tag].num >= 2
      requires item.owner in trans && trans[item.owner].state.Executing?
      modifies this
      ensures kept <==>
        LostOf(old(raw), CurrentChanged(current), rs, item.owner, |old(raw)|) < old(table)[item.tag].num - 1
      ensures item.owner in trans
      ensures kept ==> Valid() && Evolves(old(trans), trans) && trans[item.owner].state.Executing?
      ensures kept ==>
        var answers := Answers(old(trans), old(raw), CurrentChanged(current), rs, item.owner, |old(raw)|);
        trans[item.owner].handed == old(trans)[item.owner].handed + answers + [HandBack(item.state, Requeues(item, r))]
      ensures !kept ==>
        trans[item.owner].state.Finished? && forall t :: 0 <= t < |table| ==> table[t].client != Some(item.owner)
    {
      var c := item.owner;
      Lend(item);
      ghost var lent, units := trans, raw;
      AnswersSame(old(trans), lent, raw, CurrentChanged(current), rs, c, |raw|);
      hide *;
      CurrentMediaChanged(Some(current), rs, Some(c));
      kept := StillServed(c, lent, units, current, rs);
      if kept {
        FinishLent(item, r, old(trans), lent, Answers(old(trans), units, CurrentChanged(current), rs, c, |units|));
      }
    }

    /** Takes the unit in hand off the count of its slot and off the units to come. */
    method Lend(item: Unit)
      requires Inv(multiset{MarkOf(item)}, -1, None) && item.tag < |table| && table[item.tag].num >= 2
      requires item.owner in trans && trans[item.owner].state.Executing?
      modifies this`table, this`trans
      ensures var c, t := item.owner, old(trans)[item.owner];
        && Inv(multiset{}, -1, Some(c)) && t.itemNum == old(table)[item.tag].num && t.slot == Some(item.tag)
        && trans == old(trans)[c := t.(itemNum := t.itemNum - 1)]
        && Evolves(old(trans), trans)
    {
      hide Floor.AllMarks, Running, Sound, Evolves;
      var c := item.owner;
      assert Live() + multiset{} == Live();
      UnitLent(table, trans, Live() + multiset{}, MarkOf(item));
      LentEvolves(trans, c);
      TableRuns(View(), table, table[item.tag := table[item.tag].(num := table[item.tag].num - 1)], trans, reused, asleep);
      table := table[item.tag := table[item.tag].(num := table[item.tag].num - 1)];
      BooksRun(View(), table, trans, reused, asleep, c, trans[c].(itemNum := trans[c].itemNum - 1));
      trans := trans[c := trans[c].(itemNum := trans[c].itemNum - 1)];
    }

    /** Looks whether the transaction still has a slot. */
    method StillServed(c: TransId, ghost lent: map<TransId, Trans>, ghost units: seq<Unit>, ghost current: Priority, ghost rs: seq<Reaction>)
      returns (kept: bool)
      requires Inv(multiset{}, -1, Some(c)) && |units| == |rs| && AllAccounts(lent, Some(c)) && Evolves(lent, trans)
      requires c in lent && lent[c].state.Executing? && lent[c].slot.Some?
      requires Answered(lent, trans, units, CurrentChanged(current), rs, |units|)
      ensures c in trans
      ensures kept <==> LostOf(units, CurrentChanged(current), rs, c, |units|) < lent[c].itemNum
      ensures kept ==> trans[c].state.Executing? && trans[c].itemNum > 0 && trans[c].slot == lent[c].slot
      ensures kept ==> trans[c].handed == lent[c].handed + Answers(lent, units, CurrentChanged(current), rs, c, |units|)
      ensures !kept ==> trans[c].state.Finished? && forall t :: 0 <= t < |table| ==> table[t].client != Some(c)
    {
      LentStays(table, lent, trans, units, CurrentChanged(current), rs, c);
      assert c in lent ==> c in trans;
      hide Matches, ClientsAgree, AllAccounts, Trimmed, Running, LostOf, Floor.AllMarks;
      var tag := FindClient(Some(c));
      kept := tag < |table|;
    }

    /** What the outer callback does after the change, and what follows it. */
    method FinishLent(
        item: Unit, r: Reaction,
        ghost first: map<TransId, Trans>, ghost lent: map<TransId, Trans>, ghost answers: seq<HandBack>)
      requires Inv(multiset{}, -1, Some(item.owner)) && item.owner in trans && trans[item.owner].state.Executing?
      requires (item.state == CommonDestVanish || item.state == CommonDestChange) && item.autoDest
      requires trans[item.owner].itemNum > 0 && trans[item.owner].slot == Some(item.tag)
      requires Evolves(first, lent) && Evolves(lent, trans) && item.owner in first
      requires trans[item.owner].handed == first[item.owner].handed + answers
      modifies this
      ensures Valid() && Evolves(first, trans) && item.owner in trans && trans[item.owner].state.Executing?
      ensures trans[item.owner].handed == first[item.owner].handed + answers + [HandBack(item.state, Requeues(item, r))]
      ensures View() == if Requeues(item, r) then FloorAfterRequeue(old(View()), item, r) else old(View())
    {
      hide Floor.AllMarks, Matches, Running, ClientsAgree, AllAccounts, Trimmed, Evolves, LeftTable, AfterHandBack, Requeues, SlotOf,
        FloorAfterRequeue;
      var c, tag := item.owner, item.tag;
      ghost var before, more := trans, Requeues(item, r);
      UnitReturned(table, trans, Live() + multiset{}, tag, c);
      LentHandBack(table, trans, tag, c, item.state, more);
      BookRest(c, item, r, multiset{});
      EvolvesOn(first, lent, before);
      EvolvesOn(first, before, trans);
      SlotLeft(table, trans, tag, Live() + multiset{});
      LeftRuns(View(), table, trans, reused, asleep, tag);
      LeaveSlot(tag);
    }

    // ----------------------------------------------------------- whole runs

    method OnEvent(e: Event)
      requires Valid()
      modifies this
      ensures Valid() && EndedStay(old(trans), trans) && StuckStay(old(trans), trans, [e])
      ensures StartsNothing(e) ==> reused == old(reused)
      ensures PutsNothingBack(e) ==> asleep == old(asleep)
    {
      hide Sound, Floor.AllMarks, Answered, Running, AfterMoves, TableAfterAttach, FloorAfterAttach, FloorAfterCancel, CancelTable,
        Untouched, AllGoneBack, GivesLate;
      match e {
        case Work(moves) => LetWork(moves);
        case ExecuteTrans(id, moves) =>
          if id in trans && trans[id].state.NotBegin? {
            var _ := Execute(id, moves, multiset{}, -1, None);
          }
        case Drain(rs) => Process(rs);
        case MediaChanged(current, rs) => CurrentMediaChanged(current, FitReactions(rs, |raw|), None);
        case MediaGone(priority, rs) => MediaInactive(priority, FitReactions(rs, |raw|));
        case CancelTrans(id, ms) =>
          assert AllSpare([e], id) ==> Spares(e, id) by {
            assert e in [e];
          }
          if id in trans {
            Cancel(id, FitMoves(ms, |raw|));
          }
      }
    }

    /** In every run of the workshop, whatever happens in whatever order: all counts agree;
        transactions that ended stay as they ended, and one that found no room stays
        executing until it is cancelled; as long as no order to cancel a tag waited when the
        tag was given to a new client, no transaction is told that a unit was cancelled;
        as long as no raw unit went back unnoticed, the workers come to what is raw; and each
        unit that is raw or at work has its destination. */
    method RunEvents(events: seq<Event>)
      requires Valid()
      modifies this
      ensures Valid() && EndedStay(old(trans), trans) && CountsAgree(table, trans, Live())
      ensures StuckStay(old(trans), trans, events)
      ensures !reused ==> NoneCancelled(trans)
      ensures !asleep ==> View().Awake()
      ensures Equipped(raw) && forall x <- workers :: x.held.Some? ==> x.held.value.state.OnGoing? && x.held.value.hasDest
      ensures NoneStarts(events) ==> reused == old(reused)
      ensures NonePutsBack(events) ==> asleep == old(asleep)
    {
      assert EndedStay(trans, trans) && StuckStay(trans, trans, events[..0]);
      EventsEnd(events);
      hide *;
      for i := 0 to |events|
        invariant Valid() && EndedStay(old(trans), trans) && StuckStay(old(trans), trans, events[..i])
        invariant NoneStarts(events) ==> reused == old(reused)
        invariant NonePutsBack(events) ==> asleep == old(asleep)
      {
        ghost var before := trans;
        EventAt(events, i);
        OnEvent(events[i]);
        EndedStayOn(old(trans), before, trans);
        StuckStayOn(old(trans), before, trans, events[..i], events[i]);
      }
      Tells();
    }

    /** What the invariant says between two events. */
    ghost method Tells()
      requires Valid()
      ensures CountsAgree(table, trans, Live()) && (!reused ==> NoneCancelled(trans)) && (!asleep ==> View().Awake())
      ensures Equipped(raw) && forall x <- workers :: x.held.Some? ==> x.held.value.state.OnGoing? && x.held.value.hasDest
    {
      hide Sound, Floor.AllMarks, Running;
      assert Live() + multiset{} == Live();
      SoundCounts(table, trans, Live());
      RunningTells(View(), table, trans, reused, asleep);
    }
  }

  lemma {:induction false} NobodyHolds(workers: seq<Worker>)
    requires forall i :: 0 <= i < |workers| ==> workers[i] == IDLE_WORKER
    ensures HeldMarks(workers) == multiset{}
  {
    if workers != [] {
      NobodyHolds(workers[1..]);
    }
  }
}
