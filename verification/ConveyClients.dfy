/** The workshop's table of clients and the books of the clients, which are convey
    transactions: what each operation does to them, and what it keeps. A client is known by
    a slot of the table, whose index is the tag of the client's units. */
module ConveyClients {
  import opened Basics
  import opened ConveyUnits
  import opened ConveyFloor

  /** The largest number of slots: a tag is one byte, and 255 means none. */
  const MAX_SLOTS := 255

  /** `owner` remembers the last client, also when it has gone: kept for the proofs. */
  datatype Slot = Slot(client: Option<TransId>, num: nat, owner: TransId)

  datatype TransState = NotBegin | Executing | Finished(success: bool) | Canceled

  /** A unit that came back to its transaction, and whether it was queued again. */
  datatype HandBack = HandBack(state: UnitState, requeued: bool)

  /** A convey transaction. Its first units stay in `list`, `slot` is the slot it was
      given when the workshop took them, and `handed` lists the units that came back:
      all three are kept for the proofs. */
  datatype Trans = Trans(
    state: TransState,
    list: seq<Unit>,
    itemNum: nat,
    failNum: nat,
    slot: Option<nat>,
    handed: seq<HandBack>)

  // ----------------------------------------------------------------- the table

  /** The count of each slot is the number of units that carry its tag, all of which
      belong to the slot's owner, and no unit carries any other tag. */
  predicate Matches(table: seq<Slot>, marks: multiset<Mark>) {
    && (forall t: Tag :: t < |table| ==> marks[Mark(t, table[t].owner)] == table[t].num)
    && (forall m :: m in marks ==> m.tag < |table| && m.owner == table[m.tag].owner)
    && (forall t :: 0 <= t < |table| && table[t].client.Some? ==> table[t].client.value == table[t].owner)
  }

  /** The first slot without requests, or the end of the table. */
  function FreeSlot(table: seq<Slot>): (t: nat)
    ensures t <= |table| && (t < |table| ==> table[t].num == 0)
    ensures forall i :: 0 <= i < t ==> table[i].num > 0
  {
    if table == [] || table[0].num == 0 then 0 else 1 + FreeSlot(table[1..])
  }

  predicate HasRoom(table: seq<Slot>) {
    FreeSlot(table) < |table| || |table| < MAX_SLOTS
  }

  function PutSlot(table: seq<Slot>, t: nat, slot: Slot): seq<Slot>
    requires t <= |table|
  {
    if t < |table| then table[t := slot] else table + [slot]
  }

  /** Without the slots at the end that have no requests. */
  function Trim(table: seq<Slot>): seq<Slot> {
    if table != [] && table[|table| - 1].num == 0 then Trim(table[..|table| - 1]) else table
  }

  /** Trimming erases a slot exactly when neither it nor a later one has requests. */
  lemma {:induction false} TrimErases(table: seq<Slot>, t: nat)
    requires t < |table|
    ensures Trim(table) <= table
    ensures t < |Trim(table)| <==> exists i :: t <= i < |table| && table[i].num > 0
    decreases table
  {
    var last := |table| - 1;
    if table[last].num == 0 {
      if t < last {
        TrimErases(table[..last], t);
      } else {
        TrimShortens(table[..last]);
      }
    }
  }

  lemma {:induction false} TrimShortens(table: seq<Slot>)
    ensures Trim(table) <= table
    ensures Trim(table) == [] || Trim(table)[|Trim(table)| - 1].num > 0
    ensures forall i :: |Trim(table)| <= i < |table| ==> table[i].num == 0
  {
    if table != [] && table[|table| - 1].num == 0 {
      TrimShortens(table[..|table| - 1]);
    }
  }

  lemma {:induction false} MatchesTrim(table: seq<Slot>, marks: multiset<Mark>)
    requires Matches(table, marks)
    ensures Matches(Trim(table), marks)
  {
    TrimShortens(table);
  }

  /** A unit that is counted has a slot with requests, and the slot is its owner's. */
  lemma {:induction false} CountedUnitHasSlot(table: seq<Slot>, marks: multiset<Mark>, m: Mark)
    requires Matches(table, marks + multiset{m})
    ensures m.tag < |table| && table[m.tag].num > 0 && table[m.tag].owner == m.owner
    ensures Matches(table[m.tag := table[m.tag].(num := table[m.tag].num - 1)], marks)
  {
    var all := marks + multiset{m};
    assert m in all && all[m] == marks[m] + 1;
    forall n | n in marks ensures n in all {
    }
    forall t: Tag | t < |table| && t != m.tag
      ensures marks[Mark(t, table[t].owner)] == table[t].num
    {
      assert all[Mark(t, table[t].owner)] == marks[Mark(t, table[t].owner)];
    }
  }

  lemma {:induction false} CountOneMore(table: seq<Slot>, marks: multiset<Mark>, t: Tag)
    requires Matches(table, marks) && t < |table|
    ensures Matches(table[t := table[t].(num := table[t].num + 1)], marks + multiset{Mark(t, table[t].owner)})
  {
  }

  lemma {:induction false} PutUnused(table: seq<Slot>, marks: multiset<Mark>, t: Tag, client: TransId, n: nat)
    requires Matches(table, marks) && t <= |table| && forall m :: m in marks ==> m.tag != t
    ensures Matches(PutSlot(table, t, Slot(Some(client), n, client)), marks + multiset{}[Mark(t, client) := n])
  {
    var table' := PutSlot(table, t, Slot(Some(client), n, client));
    var more := multiset{}[Mark(t, client) := n];
    assert Mark(t, client) !in marks;
    forall m | m in marks + more ensures m.tag < |table'| && m.owner == table'[m.tag].owner {
      assert m in marks || m == Mark(t, client);
    }
    forall s: Tag | s < |table'| && s != t ensures (marks + more)[Mark(s, table'[s].owner)] == table'[s].num {
      assert table'[s] == table[s];
    }
  }

  /** Only a tag that no unit carries is given to a new client. */
  lemma {:induction false} FreeTagIsUnused(table: seq<Slot>, marks: multiset<Mark>, client: TransId, n: nat)
    requires Matches(table, marks) && HasRoom(table) && |table| <= MAX_SLOTS
    ensures var t := FreeSlot(table);
      && t < MAX_SLOTS && (forall m :: m in marks ==> m.tag != t)
      && Matches(PutSlot(table, t, Slot(Some(client), n, client)), marks + multiset{}[Mark(t, client) := n])
  {
    var t: Tag := FreeSlot(table);
    forall m | m in marks ensures m.tag != t {
      assert marks[Mark(m.tag, table[m.tag].owner)] == table[m.tag].num;
    }
    PutUnused(table, marks, t, client, n);
    hide Matches;
  }

  // ---------------------------------------------------------- the transactions

  predicate IsFailure(h: HandBack) {
    match h.state
    case Failed | SrcVanish | DestVanish => true
    case CommonDestVanish | CommonDestChange => !h.requeued
    case _ => false
  }

  function Requeued(handed: seq<HandBack>): nat {
    if handed == [] then 0
    else Requeued(handed[..|handed| - 1]) + (if handed[|handed| - 1].requeued then 1 else 0)
  }

  function Failures(handed: seq<HandBack>): nat {
    if handed == [] then 0
    else Failures(handed[..|handed| - 1]) + (if IsFailure(handed[|handed| - 1]) then 1 else 0)
  }

  lemma {:induction false} FailuresExist(handed: seq<HandBack>)
    ensures Failures(handed) > 0 <==> exists i :: 0 <= i < |handed| && IsFailure(handed[i])
    decreases |handed|
  {
    if handed != [] {
      var init := handed[..|handed| - 1];
      FailuresExist(init);
      assert forall i :: 0 <= i < |init| ==> init[i] == handed[i];
    }
  }

  /** The books of a transaction. Units to come are those it had, and those queued again,
      without those handed back; it is finished when none is to come. */
  predicate Accounts(t: Trans) {
    match t.state
    case NotBegin => t.itemNum == |t.list| && t.handed == [] && t.failNum == 0 && t.slot == None
    case Executing =>
      && t.list != [] && t.failNum == Failures(t.handed) && AllConveyed(t.handed)
      && t.itemNum + |t.handed| == |t.list| + Requeued(t.handed)
    case Finished(success) =>
      && t.itemNum == 0 && |t.handed| == |t.list| + Requeued(t.handed) && AllConveyed(t.handed)
      && (success <==> t.list != [] && Failures(t.handed) == 0)
    case Canceled => t.itemNum == 0
  }

  /** A worker or a media event brought each unit back, and only a unit whose destination
      was chosen by the storage manager was queued again. */
  predicate AllConveyed(handed: seq<HandBack>) {
    forall i :: 0 <= i < |handed| ==>
      Conveyed(handed[i].state)
      && (handed[i].requeued ==> handed[i].state == CommonDestVanish || handed[i].state == CommonDestChange)
  }

  /** The books while the callback of the transaction has a unit in hand that it has not
      settled: it was taken off the units to come. */
  predicate BusyAccounts(t: Trans) {
    match t.state
    case Executing => Accounts(t.(itemNum := t.itemNum + 1))
    case Finished(_) => t.itemNum == 0 && |t.handed| + 1 == |t.list| + Requeued(t.handed)
    case _ => false
  }

  predicate Books(t: Trans, busy: bool) {
    if busy then BusyAccounts(t) else Accounts(t)
  }

  /** `but` is the transaction whose callback has a unit in hand, if one has. Each transaction
      took only units of its own that have a destination. */
  predicate AllAccounts(trans: map<TransId, Trans>, but: Option<TransId>) {
    forall c <- trans ::
      Books(trans[c], but == Some(c)) && Mine(trans[c].list, c) && Equipped(trans[c].list)
  }

  /** A transaction that executes and has no slot: it found no room. */
  predicate Stuck(t: Trans) {
    t.state.Executing? && t.slot.None?
  }

  /** What may happen to transactions when units come back: those that ended hear
      nothing any more, nor do those without a slot, and none is cancelled. */
  predicate Evolves(before: map<TransId, Trans>, after: map<TransId, Trans>) {
    forall c <- before ::
      && c in after && before[c].list == after[c].list && before[c].handed <= after[c].handed
      && (before[c].state.Finished? || before[c].state.Canceled? || Stuck(before[c]) ==> after[c] == before[c])
      && (before[c].state.Executing? ==>
            after[c].slot == before[c].slot && (after[c].state.Executing? || after[c].state.Finished?))
      && (after[c].state.Canceled? ==> before[c].state.Canceled?)
  }

  lemma {:induction false} OneChanges(trans: map<TransId, Trans>, but: Option<TransId>, c: TransId, t: Trans)
    requires AllAccounts(trans, but) && c in trans && Books(t, but == Some(c))
    requires trans[c].state.NotBegin? || (trans[c].state.Executing? && trans[c].slot.Some? && t.slot == trans[c].slot)
    requires t.list == trans[c].list && trans[c].handed <= t.handed && !t.state.Canceled? && !t.state.NotBegin?
    ensures AllAccounts(trans[c := t], but) && Evolves(trans, trans[c := t]) && trans[c := t].Keys == trans.Keys
  {
    hide Books;
  }

  lemma {:induction false} EvolvesSelf(a: map<TransId, Trans>)
    ensures Evolves(a, a)
  {
  }

  lemma {:induction false} EvolvesOn(a: map<TransId, Trans>, b: map<TransId, Trans>, c: map<TransId, Trans>)
    requires Evolves(a, b) && Evolves(b, c)
    ensures Evolves(a, c)
  {
  }

  /** Every transaction but c gets no unit back, and c those in hs. */
  predicate Told(before: map<TransId, Trans>, after: map<TransId, Trans>, c: TransId, hs: seq<HandBack>) {
    forall d <- before ::
      d in after && after[d].handed == if d == c then before[d].handed + hs else before[d].handed
  }

  /** Those of the given transactions that had not begun have begun, and nobody else changed. */
  predicate Begun(before: map<TransId, Trans>, after: map<TransId, Trans>, ids: seq<TransId>) {
    forall d <- before ::
      && d in after
      && (if d in ids && before[d].state.NotBegin? then after[d].state.Executing? || after[d].state.Finished?
          else after[d] == before[d])
  }

  lemma {:induction false} BegunOn(
      a: map<TransId, Trans>, b: map<TransId, Trans>, c: map<TransId, Trans>, ids: seq<TransId>, i: nat)
    requires i < |ids| && Begun(a, b, ids[..i]) && Begun(b, c, [ids[i]])
    ensures Begun(a, c, ids[..i + 1])
  {
    assert forall d :: d in ids[..i + 1] <==> d in ids[..i] || d == ids[i];
  }

  lemma {:induction false} ToldOn(a: map<TransId, Trans>, b: map<TransId, Trans>, d: map<TransId, Trans>, c: TransId, hs: seq<HandBack>)
    requires Told(a, b, c, hs) && Told(b, d, c, [])
    ensures Told(a, d, c, hs)
  {
  }

  /** A client's count is the count of its slot. The client of the slot whose unit is just
      being handed back (`mid`) may have finished already. */
  predicate ClientsAgree(table: seq<Slot>, trans: map<TransId, Trans>, mid: int) {
    && (forall i :: 0 <= i < |table| && table[i].client.Some? ==>
          SlotAgrees(table[i], i, trans, i == mid))
    && (forall i :: 0 <= i < |table| && table[i].client == None && table[i].num > 0 ==>
          table[i].owner in trans && trans[table[i].owner].state.Canceled?)
    && (forall c <- trans :: trans[c].state.Executing? && trans[c].slot.Some? ==>
          var i := trans[c].slot.value;
          i < |table| && table[i].client == Some(c))
  }

  predicate SlotAgrees(slot: Slot, i: nat, trans: map<TransId, Trans>, mid: bool)
    requires slot.client.Some?
  {
    var c := slot.client.value;
    && c in trans && trans[c].slot == Some(i)
    && (if slot.num > 0 then trans[c].state.Executing? && trans[c].itemNum == slot.num
        else mid && trans[c].state.Finished?)
  }

  /** The last slot has requests: the table was trimmed. */
  predicate Trimmed(table: seq<Slot>, mid: int) {
    table == [] || table[|table| - 1].num > 0 || mid == |table| - 1
  }

  /** Table, transactions and the marks of all units fit together. */
  predicate Sound(
      table: seq<Slot>, trans: map<TransId, Trans>, marks: multiset<Mark>, mid: int, but: Option<TransId>) {
    && Matches(table, marks) && |table| <= MAX_SLOTS && Trimmed(table, mid)
    && ClientsAgree(table, trans, mid) && AllAccounts(trans, but)
  }

  /** Between two steps of the main thread, the count of an executing transaction is the
      number of its units in the queues and with the workers; one that has ended, or that
      found no room, has none. */
  lemma {:induction false} CountIsLiveUnits(
      table: seq<Slot>, trans: map<TransId, Trans>, marks: multiset<Mark>, c: TransId)
    requires Sound(table, trans, marks, -1, None) && c in trans
    ensures trans[c].state.Executing? && trans[c].slot.Some? ==>
      var t := trans[c].slot.value;
      && t < MAX_SLOTS && marks[Mark(t, c)] == trans[c].itemNum > 0
      && forall m :: m in marks && m.owner == c ==> m.tag == t
    ensures trans[c].state.Finished? || trans[c].state.NotBegin? || Stuck(trans[c]) ==>
      forall m :: m in marks ==> m.owner != c
  {
    if trans[c].state.Executing? && trans[c].slot.Some? {
      var t := trans[c].slot.value;
      assert SlotAgrees(table[t], t, trans, false) && table[t].owner == c;
      assert marks[Mark(t, table[t].owner)] == table[t].num;
    }
    forall m | m in marks && m.owner == c
      ensures trans[c].state.Canceled? || (trans[c].state.Executing? && trans[c].slot == Some(m.tag as nat))
    {
      assert marks[Mark(m.tag, table[m.tag].owner)] == table[m.tag].num;
      if table[m.tag].client.Some? {
        assert SlotAgrees(table[m.tag], m.tag, trans, false);
      }
    }
  }

  /** What a finished transaction reports: success exactly if it had units and each that
      came back was done, was queued again, or had been cancelled. */
  lemma {:induction false} FinishedTells(t: Trans)
    requires Accounts(t) && t.state.Finished?
    ensures |t.handed| == |t.list| + Requeued(t.handed)
    ensures t.state.success <==>
      t.list != [] && forall i :: 0 <= i < |t.handed| ==>
        t.handed[i].state == Done || t.handed[i].requeued || t.handed[i].state == Cancelled
  {
    FailuresExist(t.handed);
    assert forall i :: 0 <= i < |t.handed| ==>
      (IsFailure(t.handed[i]) <==>
        !(t.handed[i].state == Done || t.handed[i].requeued || t.handed[i].state == Cancelled));
  }

  /** The first slot of a client, or the end of the table. */
  function SlotOf(table: seq<Slot>, client: Option<TransId>): (t: nat)
    ensures t <= |table| && (t < |table| ==> table[t].client == client)
    ensures forall i :: 0 <= i < t ==> table[i].client != client
  {
    if table == [] || table[0].client == client then 0 else 1 + SlotOf(table[1..], client)
  }

  lemma {:induction false} AttachAgrees(table: seq<Slot>, trans: map<TransId, Trans>, mid: int, c: TransId)
    requires ClientsAgree(table, trans, mid) && HasRoom(table)
    requires c in trans && trans[c].state.NotBegin? && trans[c].itemNum > 0
    ensures var t := FreeSlot(table);
      ClientsAgree(
        PutSlot(table, t, Slot(Some(c), trans[c].itemNum, c)),
        trans[c := trans[c].(state := Executing, slot := Some(t))],
        mid)
  {
    var t := FreeSlot(table);
    var table' := PutSlot(table, t, Slot(Some(c), trans[c].itemNum, c));
    var trans' := trans[c := trans[c].(state := Executing, slot := Some(t))];
    hide FreeSlot;
    forall i | 0 <= i < |table'| && table'[i].client.Some? ensures SlotAgrees(table'[i], i, trans', i == mid) {
      if i != t {
        assert table'[i] == table[i] && SlotAgrees(table[i], i, trans, i == mid);
      }
    }
    forall d | d in trans' && trans'[d].state.Executing? && trans'[d].slot.Some?
      ensures trans'[d].slot.value < |table'| && table'[trans'[d].slot.value].client == Some(d)
    {
      assert d != c ==> trans'[d] == trans[d];
    }
  }

  /** A transaction without a slot may change as it likes. */
  lemma {:induction false} IdleAgrees(table: seq<Slot>, trans: map<TransId, Trans>, mid: int, c: TransId)
    requires ClientsAgree(table, trans, mid) && c in trans && trans[c].state.NotBegin?
    ensures ClientsAgree(table, trans[c := trans[c].(state := Finished(false))], mid)
    ensures ClientsAgree(table, trans[c := trans[c].(state := Executing, slot := None)], mid)
  {
  }

  function TableAfterAttach(table: seq<Slot>, c: TransId, n: nat): seq<Slot> {
    if HasRoom(table) then PutSlot(table, FreeSlot(table), Slot(Some(c), n, c)) else table
  }

  function TransAfterAttach(table: seq<Slot>, t: Trans): Trans {
    t.(state := Executing, slot := if HasRoom(table) then Some(FreeSlot(table)) else None)
  }

  lemma {:induction false} BeginKeeps(table: seq<Slot>, trans: map<TransId, Trans>, mid: int, but: Option<TransId>, c: TransId)
    requires ClientsAgree(table, trans, mid) && Trimmed(table, mid) && AllAccounts(trans, but)
    requires c in trans && trans[c].state.NotBegin? && trans[c].itemNum > 0
    ensures trans[c].list != [] && trans[c].itemNum == |trans[c].list|
    ensures Mine(trans[c].list, c) && Equipped(trans[c].list)
    ensures var table', trans' := TableAfterAttach(table, c, trans[c].itemNum), trans[c := TransAfterAttach(table, trans[c])];
      && ClientsAgree(table', trans', mid) && Trimmed(table', mid) && |table'| >= |table|
      && AllAccounts(trans', but) && Evolves(trans, trans')
  {
    hide ClientsAgree, FreeSlot, Accounts, BusyAccounts, AllAccounts, Evolves;
    BeginBooks(trans, but, c, if HasRoom(table) then Some(FreeSlot(table)) else None);
    if HasRoom(table) {
      AttachAgrees(table, trans, mid, c);
    } else {
      IdleAgrees(table, trans, mid, c);
    }
  }

  lemma {:induction false} BeginBooks(trans: map<TransId, Trans>, but: Option<TransId>, c: TransId, slot: Option<nat>)
    requires AllAccounts(trans, but) && c in trans && trans[c].state.NotBegin? && trans[c].itemNum > 0
    ensures trans[c].list != [] && trans[c].itemNum == |trans[c].list|
    ensures Mine(trans[c].list, c) && Equipped(trans[c].list)
    ensures var trans' := trans[c := trans[c].(state := Executing, slot := slot)];
      AllAccounts(trans', but) && Evolves(trans, trans')
  {
    var t := trans[c].(state := Executing, slot := slot);
    assert Books(trans[c], but == Some(c)) && but != Some(c) && Failures([]) == Requeued([]) == 0;
    assert Accounts(t);
    hide Accounts, BusyAccounts;
    OneChanges(trans, but, c, t);
  }

  /** A transaction without units ends at once. */
  lemma {:induction false} NothingToDo(table: seq<Slot>, trans: map<TransId, Trans>, mid: int, but: Option<TransId>, c: TransId)
    requires ClientsAgree(table, trans, mid) && AllAccounts(trans, but)
    requires c in trans && trans[c].state.NotBegin? && trans[c].itemNum == 0
    ensures var trans' := trans[c := trans[c].(state := Finished(false))];
      ClientsAgree(table, trans', mid) && AllAccounts(trans', but) && Evolves(trans, trans')
  {
    assert Accounts(trans[c]) && but != Some(c) && Failures([]) == Requeued([]) == 0;
    IdleAgrees(table, trans, mid, c);
    OneChanges(trans, but, c, trans[c].(state := Finished(false)));
    hide ClientsAgree, Evolves;
  }

  lemma {:induction false} HandedBackAgrees(table: seq<Slot>, trans: map<TransId, Trans>, tag: nat)
    requires tag < |table| && ClientsAgree(table, trans, tag)
    ensures var after := if table[tag].num == 0 then table[tag := table[tag].(client := None)] else table;
      ClientsAgree(after, trans, -1)
  {
  }

  lemma {:induction false} TrimAgrees(table: seq<Slot>, trans: map<TransId, Trans>)
    requires ClientsAgree(table, trans, -1)
    ensures ClientsAgree(Trim(table), trans, -1) && Trimmed(Trim(table), -1)
  {
    TrimShortens(table);
  }

  // --------------------------------------------------------- handing units back

  /** What surrounds the hand-back of a unit: the workers' moves, whether a destination
      was prepared again and passed the checks, and the transactions that are executed
      when its transaction has finished. */
  datatype Reaction = Reaction(moves: seq<Move>, destReady: bool, newDest: nat, started: seq<TransId>)

  /** Whether the callback queues a unit again: its destination, chosen by the storage
      manager, changed or vanished, and another one could be prepared. */
  predicate Requeues(item: Unit, r: Reaction) {
    (item.state == CommonDestVanish || item.state == CommonDestChange) && item.autoDest && r.destReady
  }

  /** A transaction that got a unit back. */
  function AfterHandBack(t: Trans, state: UnitState, requeued: bool): Trans {
    var h := HandBack(state, requeued);
    var left := if requeued || t.itemNum == 0 then t.itemNum else t.itemNum - 1;
    var failNum := t.failNum + (if IsFailure(h) then 1 else 0);
    t.(itemNum := left, failNum := failNum, handed := t.handed + [h],
       state := if left == 0 then Finished(failNum == 0) else t.state)
  }

  function OneMoreRequest(table: seq<Slot>, t: nat): seq<Slot>
    requires t < |table|
  {
    table[t := table[t].(num := table[t].num + 1)]
  }

  /** What the owner of a unit that is done is told: nothing if it was cancelled. */
  function AnswerOf(trans: map<TransId, Trans>, item: Unit, r: Reaction): seq<HandBack> {
    if item.owner in trans && trans[item.owner].state.Canceled? then []
    else [HandBack(item.state, Requeues(item, r))]
  }

  /** Who is executed after the callback: nobody before the transaction has finished. */
  function Followers(t: Trans, r: Reaction): seq<TransId> {
    if t.state.Finished? then r.started else []
  }

  /** A unit was handed back: its owner has booked it, or was cancelled before, and
      nobody else got a unit; if the owner has finished, the next ones have begun. */
  predicate HandedBack(before: map<TransId, Trans>, after: map<TransId, Trans>, item: Unit, r: Reaction) {
    && Evolves(before, after) && Told(before, after, item.owner, AnswerOf(before, item, r))
    && item.owner in before && item.owner in after
    && (before[item.owner].state.Executing? || before[item.owner].state.Canceled?)
    && (before[item.owner].state.Canceled? ==> after == before)
    && (before[item.owner].state.Executing? ==>
          && after[item.owner] == AfterHandBack(before[item.owner], item.state, Requeues(item, r))
          && Begun(before[item.owner := after[item.owner]], after, Followers(after[item.owner], r)))
  }

  lemma {:induction false} OnlySlot(table: seq<Slot>, trans: map<TransId, Trans>, tag: nat, c: TransId)
    requires tag < |table| && table[tag].client == Some(c) && ClientsAgree(OneMoreRequest(table, tag), trans, -1)
    ensures SlotOf(table, Some(c)) == tag
  {
    var more := OneMoreRequest(table, tag);
    var t := SlotOf(table, Some(c));
    assert t <= tag;
    assert SlotAgrees(more[t], t, trans, false) && SlotAgrees(more[tag], tag, trans, false);
  }

  lemma {:induction false} AccountsAfterHandBack(t: Trans, state: UnitState, requeued: bool)
    requires Accounts(t) && t.state.Executing? && t.itemNum > 0 && Conveyed(state)
    requires requeued ==> state == CommonDestVanish || state == CommonDestChange
    ensures Accounts(AfterHandBack(t, state, requeued))
  {
    var h := HandBack(state, requeued);
    var handed := t.handed + [h];
    assert handed[..|handed| - 1] == t.handed;
    assert Requeued(handed) == Requeued(t.handed) + (if requeued then 1 else 0);
    assert Failures(handed) == Failures(t.handed) + (if IsFailure(h) then 1 else 0);
  }

  /** The same while another unit of the transaction is in hand. */
  lemma {:induction false} BusyAfterHandBack(t: Trans, state: UnitState, requeued: bool)
    requires BusyAccounts(t) && t.state.Executing? && t.itemNum > 0 && Conveyed(state)
    requires requeued ==> state == CommonDestVanish || state == CommonDestChange
    ensures BusyAccounts(AfterHandBack(t, state, requeued))
  {
    AccountsAfterHandBack(t.(itemNum := t.itemNum + 1), state, requeued);
    var h := HandBack(state, requeued);
    var handed := t.handed + [h];
    assert handed[..|handed| - 1] == t.handed;
    assert Requeued(handed) == Requeued(t.handed) + (if requeued then 1 else 0);
    assert AfterHandBack(t.(itemNum := t.itemNum + 1), state, requeued).handed == handed;
  }

  lemma {:induction false} BooksAfterHandBack(
      trans: map<TransId, Trans>, but: Option<TransId>, c: TransId, state: UnitState, requeued: bool)
    requires AllAccounts(trans, but) && Conveyed(state)
    requires c in trans && trans[c].state.Executing? && trans[c].slot.Some? && trans[c].itemNum > 0
    requires requeued ==> state == CommonDestVanish || state == CommonDestChange
    ensures var trans' := trans[c := AfterHandBack(trans[c], state, requeued)];
      AllAccounts(trans', but) && Evolves(trans, trans')
  {
    assert Books(trans[c], but == Some(c));
    if but == Some(c) {
      BusyAfterHandBack(trans[c], state, requeued);
    } else {
      AccountsAfterHandBack(trans[c], state, requeued);
    }
    hide Accounts, BusyAccounts, AllAccounts, Evolves;
    OneChanges(trans, but, c, AfterHandBack(trans[c], state, requeued));
  }

  /** Handing a unit back keeps count and books together. */
  lemma {:induction false} HandBackKeeps(
      table: seq<Slot>, trans: map<TransId, Trans>, but: Option<TransId>, tag: nat, c: TransId, state: UnitState, requeued: bool)
    requires tag < |table| && table[tag].client == Some(c) && AllAccounts(trans, but) && Conveyed(state)
    requires ClientsAgree(OneMoreRequest(table, tag), trans, -1) && Trimmed(OneMoreRequest(table, tag), -1)
    requires requeued ==> state == CommonDestVanish || state == CommonDestChange
    ensures c in trans && trans[c].state.Executing? && trans[c].itemNum > 0
    ensures var table' := if requeued then OneMoreRequest(table, tag) else table;
      var trans' := trans[c := AfterHandBack(trans[c], state, requeued)];
      && ClientsAgree(table', trans', tag) && Trimmed(table', tag)
      && AllAccounts(trans', but) && Evolves(trans, trans')
  {
    hide ClientsAgree, AllAccounts, Evolves, AfterHandBack;
    ClientWaits(table, trans, tag, c);
    BooksAfterHandBack(trans, but, c, state, requeued);
    HandBackAgrees(table, trans, tag, c, state, requeued);
  }

  lemma {:induction false} ClientWaits(table: seq<Slot>, trans: map<TransId, Trans>, tag: nat, c: TransId)
    requires tag < |table| && table[tag].client == Some(c) && ClientsAgree(OneMoreRequest(table, tag), trans, -1)
    ensures c in trans && trans[c].state.Executing? && trans[c].itemNum == table[tag].num + 1 && trans[c].slot == Some(tag)
  {
    assert SlotAgrees(OneMoreRequest(table, tag)[tag], tag, trans, false);
  }

  lemma {:induction false} HandBackAgrees(table: seq<Slot>, trans: map<TransId, Trans>, tag: nat, c: TransId, state: UnitState, requeued: bool)
    requires tag < |table| && table[tag].client == Some(c) && ClientsAgree(OneMoreRequest(table, tag), trans, -1)
    requires c in trans
    ensures ClientsAgree(
              if requeued then OneMoreRequest(table, tag) else table,
              trans[c := AfterHandBack(trans[c], state, requeued)], tag)
  {
    var more := OneMoreRequest(table, tag);
    assert SlotAgrees(more[tag], tag, trans, false);
    var trans' := trans[c := AfterHandBack(trans[c], state, requeued)];
    forall i | 0 <= i < |table| && i != tag && table[i].client.Some? ensures SlotAgrees(table[i], i, trans', false) {
      assert more[i] == table[i] && SlotAgrees(more[i], i, trans, false);
    }
    forall i | 0 <= i < |table| && i != tag && table[i].client == None && table[i].num > 0
      ensures table[i].owner in trans' && trans'[table[i].owner].state.Canceled?
    {
      assert more[i].client == None && more[i] == table[i];
    }
  }

  lemma {:induction false} NoClientAgrees(table: seq<Slot>, trans: map<TransId, Trans>, tag: nat)
    requires tag < |table| && table[tag].client == None
    requires ClientsAgree(OneMoreRequest(table, tag), trans, -1) && Trimmed(OneMoreRequest(table, tag), -1)
    ensures ClientsAgree(table, trans, tag) && Trimmed(table, tag)
  {
    var more := OneMoreRequest(table, tag);
    forall i | 0 <= i < |table| && table[i].client.Some? ensures SlotAgrees(table[i], i, trans, i == tag) {
      assert more[i] == table[i] && SlotAgrees(more[i], i, trans, false);
    }
    forall i | 0 <= i < |table| && table[i].client == None && table[i].num > 0
      ensures table[i].owner in trans && trans[table[i].owner].state.Canceled?
    {
      assert more[i].client == None && more[i].owner == table[i].owner;
    }
  }

  /** Taking a counted unit off the count of its slot. */
  lemma {:induction false} TakenOff(table: seq<Slot>, trans: map<TransId, Trans>, marks: multiset<Mark>, m: Mark)
    requires Matches(table, marks + multiset{m}) && ClientsAgree(table, trans, -1) && Trimmed(table, -1)
    ensures m.tag < |table| && table[m.tag].num > 0 && table[m.tag].owner == m.owner
    ensures table[m.tag].client.Some? ==> table[m.tag].client == Some(m.owner)
    ensures m.owner in trans
    ensures if table[m.tag].client == None then trans[m.owner].state.Canceled? else trans[m.owner].state.Executing?
    ensures var less := table[m.tag := table[m.tag].(num := table[m.tag].num - 1)];
      && Matches(less, marks) && OneMoreRequest(less, m.tag) == table
      && (table[m.tag].client == None ==> ClientsAgree(less, trans, m.tag) && Trimmed(less, m.tag))
  {
    CountedUnitHasSlot(table, marks, m);
    assert table[m.tag].client.Some? ==> table[m.tag].client.value == table[m.tag].owner;
    hide Matches;
    var slot := table[m.tag];
    assert slot.client.Some? ==> SlotAgrees(slot, m.tag, trans, false);
    var less := table[m.tag := table[m.tag].(num := table[m.tag].num - 1)];
    assert OneMoreRequest(less, m.tag) == table;
    if table[m.tag].client == None {
      NoClientAgrees(less, trans, m.tag);
    }
  }

  /** The table after the callback of a unit with this tag. */
  function LeftTable(table: seq<Slot>, tag: nat): seq<Slot>
    requires tag < |table|
  {
    var left := if table[tag].num == 0 then table[tag := table[tag].(client := None)] else table;
    if tag + 1 == |table| then Trim(left) else left
  }

  /** Giving a slot up, and the last ones with it, keeps count and clients. */
  lemma {:induction false} SlotLeft(table: seq<Slot>, trans: map<TransId, Trans>, tag: nat, marks: multiset<Mark>)
    requires tag < |table| && Matches(table, marks) && ClientsAgree(table, trans, tag) && Trimmed(table, tag)
    ensures var after := LeftTable(table, tag);
      Matches(after, marks) && ClientsAgree(after, trans, -1) && Trimmed(after, -1) && |after| <= |table|
  {
    var left := if table[tag].num == 0 then table[tag := table[tag].(client := None)] else table;
    HandedBackAgrees(table, trans, tag);
    hide ClientsAgree;
    if tag + 1 == |table| {
      TrimAgrees(left, trans);
      MatchesTrim(left, marks);
      TrimShortens(left);
    }
  }

  datatype MediaEvent = CurrentChanged(priority: Priority) | Inactive(priority: Priority)

  /** The state in which an event hands a raw unit back, if it concerns the unit. */
  function MediaVerdict(e: MediaEvent, u: Unit): Option<UnitState> {
    match e
    case CurrentChanged(p) =>
      if !u.autoDest then None else if u.src == p then Some(Done) else Some(CommonDestChange)
    case Inactive(p) =>
      if u.src == p then Some(SrcVanish)
      else if u.dest != p then None
      else if u.autoDest then Some(CommonDestVanish) else Some(DestVanish)
  }

  /** The message that the workers get. */
  function WordOf(e: MediaEvent): nat {
    match e
    case CurrentChanged(p) => Word(COMMON_DEST_CHANGE, p)
    case Inactive(p) => Word(VANISH, p)
  }

  /** A medium that goes stops a raw unit exactly as the message stops one at work. A new
      current medium concerns every raw unit whose destination is chosen by the storage
      manager, and ends those that are on it already; at work, it stops those of them that
      do not go to it. */
  lemma {:induction false} RawAndAtWork(u: Unit, p: Priority)
    ensures MediaVerdict(Inactive(p), u) == (match Judge(u, WordOf(Inactive(p)))
      case StopIn(s) => Some(s)
      case GoOn => None)
    ensures MediaVerdict(CurrentChanged(p), u).Some? <==> u.autoDest
    ensures u.autoDest ==>
      MediaVerdict(CurrentChanged(p), u).value == if u.src == p then Done else CommonDestChange
    ensures Judge(u, WordOf(CurrentChanged(p))) == if u.autoDest && u.dest != p then StopIn(CommonDestChange) else GoOn
  {
    WordParts(VANISH, p);
    WordParts(COMMON_DEST_CHANGE, p);
  }

  /** The event makes a raw unit fail: its source is gone, or its destination is gone or not
      the current one any more, and it cannot go elsewhere. */
  predicate FailsBy(e: MediaEvent, u: Unit, r: Reaction) {
    match e
    case CurrentChanged(p) => u.autoDest && u.src != p && !r.destReady
    case Inactive(p) => u.src == p || (u.dest == p && !(u.autoDest && r.destReady))
  }

  function FailingUnits(semi: seq<Unit>, e: MediaEvent, rs: seq<Reaction>, c: TransId, n: nat): nat
    requires n <= |semi| == |rs|
  {
    if n == 0 then 0
    else FailingUnits(semi, e, rs, c, n - 1) +
         (if semi[n - 1].owner == c && FailsBy(e, semi[n - 1], rs[n - 1]) then 1 else 0)
  }

  /** Each transaction that was not cancelled counts exactly its units that fail. */
  predicate FailuresGrow(
      before: map<TransId, Trans>, after: map<TransId, Trans>, semi: seq<Unit>, e: MediaEvent, rs: seq<Reaction>)
    requires |semi| == |rs|
  {
    forall c <- before :: !before[c].state.Canceled? ==>
      && c in after
      && Failures(after[c].handed) == Failures(before[c].handed) + FailingUnits(semi, e, rs, c, |semi|)
  }

  lemma {:induction false} MediaFailures(
      before: map<TransId, Trans>, after: map<TransId, Trans>, semi: seq<Unit>, e: MediaEvent, rs: seq<Reaction>)
    requires |semi| == |rs| && Answered(before, after, semi, e, rs, |semi|)
    ensures FailuresGrow(before, after, semi, e, rs)
  {
    forall c | c in before && !before[c].state.Canceled?
      ensures c in after
      ensures Failures(after[c].handed) == Failures(before[c].handed) + FailingUnits(semi, e, rs, c, |semi|)
    {
      AnswersFail(before, semi, e, rs, c, |semi|);
      FailuresConcat(before[c].handed, Answers(before, semi, e, rs, c, |semi|));
    }
  }

  lemma {:induction false} FailuresConcat(a: seq<HandBack>, b: seq<HandBack>)
    ensures Failures(a + b) == Failures(a) + Failures(b)
    decreases |b|
  {
    if b == [] {
      assert a + b == a;
    } else {
      var last := |b| - 1;
      assert (a + b)[..|a + b| - 1] == a + b[..last];
      FailuresConcat(a, b[..last]);
    }
  }

  lemma {:induction false} AnswersFail(
      trans: map<TransId, Trans>, semi: seq<Unit>, e: MediaEvent, rs: seq<Reaction>, c: TransId, n: nat)
    requires n <= |semi| == |rs| && c in trans && !trans[c].state.Canceled?
    ensures Failures(Answers(trans, semi, e, rs, c, n)) == FailingUnits(semi, e, rs, c, n)
  {
    hide MediaVerdict, FailsBy, AnswersOf, Requeues, IsFailure;
    if n > 0 {
      AnswersFail(trans, semi, e, rs, c, n - 1);
      if semi[n - 1].owner == c {
        OneAnswerFails(trans, semi[n - 1], e, rs[n - 1], Answers(trans, semi, e, rs, c, n - 1));
      }
      assert Answers(trans, semi, e, rs, c, n - 1) + [] == Answers(trans, semi, e, rs, c, n - 1);
    }
  }

  lemma {:induction false} OneAnswerFails(trans: map<TransId, Trans>, u: Unit, e: MediaEvent, r: Reaction, before: seq<HandBack>)
    requires u.owner in trans ==> !trans[u.owner].state.Canceled?
    ensures Failures(before + AnswersOf(trans, u, MediaVerdict(e, u), r)) ==
      Failures(before) + (if FailsBy(e, u, r) then 1 else 0)
  {
    var verdict := MediaVerdict(e, u);
    if verdict.Some? {
      var item := u.(state := verdict.value);
      var h := HandBack(item.state, Requeues(item, r));
      assert IsFailure(h) <==> FailsBy(e, u, r);
      assert AnswersOf(trans, u, verdict, r) == [h];
      assert (before + [h])[..|before|] == before;
    } else {
      assert !FailsBy(e, u, r) && before + [] == before;
    }
  }

  function AnswersOf(trans: map<TransId, Trans>, u: Unit, verdict: Option<UnitState>, r: Reaction): seq<HandBack> {
    if verdict == None then [] else AnswerOf(trans, u.(state := verdict.value), r)
  }

  /** What transaction c is told about the first n units. */
  function Answers(
      trans: map<TransId, Trans>, semi: seq<Unit>, e: MediaEvent, rs: seq<Reaction>, c: TransId, n: nat): seq<HandBack>
    requires n <= |semi| == |rs|
  {
    if n == 0 then []
    else Answers(trans, semi, e, rs, c, n - 1) +
         (if semi[n - 1].owner == c then AnswersOf(trans, semi[n - 1], MediaVerdict(e, semi[n - 1]), rs[n - 1]) else [])
  }

  /** Each transaction got back exactly the answers to its own units. */
  predicate Answered(
      before: map<TransId, Trans>, after: map<TransId, Trans>,
      semi: seq<Unit>, e: MediaEvent, rs: seq<Reaction>, n: nat)
    requires n <= |semi| == |rs|
  {
    forall c <- before ::
      c in after && after[c].handed == before[c].handed + Answers(before, semi, e, rs, c, n)
  }

  /** The answer to one more unit. Who was cancelled stays so, and nobody is cancelled. */
  lemma {:induction false} AnswersGrow(
      first: map<TransId, Trans>, before: map<TransId, Trans>, after: map<TransId, Trans>,
      semi: seq<Unit>, e: MediaEvent, rs: seq<Reaction>, i: nat)
    requires i < |semi| == |rs| && Answered(first, before, semi, e, rs, i)
    requires Evolves(first, before) && Evolves(before, after)
    requires Told(before, after, semi[i].owner, AnswersOf(before, semi[i], MediaVerdict(e, semi[i]), rs[i]))
    ensures Evolves(first, after) && Answered(first, after, semi, e, rs, i + 1)
  {
    EvolvesOn(first, before, after);
    var u := semi[i];
    assert u.owner in first ==>
      AnswersOf(first, u, MediaVerdict(e, u), rs[i]) == AnswersOf(before, u, MediaVerdict(e, u), rs[i]);
    assert forall c <- first :: c in before && c in after;
    hide Evolves, AnswersOf, MediaVerdict, Answers;
    forall c | c in first
      ensures c in after && after[c].handed == first[c].handed + Answers(first, semi, e, rs, c, i + 1)
    {
      OneMoreAnswer(first, semi, e, rs, c, i, before[c].handed, after[c].handed);
    }
  }

  lemma {:induction false} OneMoreAnswer(
      first: map<TransId, Trans>, semi: seq<Unit>, e: MediaEvent, rs: seq<Reaction>, c: TransId, i: nat,
      handed: seq<HandBack>, handed': seq<HandBack>)
    requires i < |semi| == |rs| && c in first
    requires handed == first[c].handed + Answers(first, semi, e, rs, c, i)
    requires handed' == if semi[i].owner == c
                        then handed + AnswersOf(first, semi[i], MediaVerdict(e, semi[i]), rs[i]) else handed
    ensures handed' == first[c].handed + Answers(first, semi, e, rs, c, i + 1)
  {
  }

  lemma {:induction false} ForgetMatches(table: seq<Slot>, marks: multiset<Mark>, tag: nat)
    requires Matches(table, marks) && tag < |table|
    ensures Matches(table[tag := table[tag].(client := None)], marks)
  {
  }

  function AfterCancel(t: Trans): Trans {
    t.(itemNum := 0, state := Canceled)
  }

  function ForgetClient(table: seq<Slot>, tag: nat, num: nat): seq<Slot>
    requires tag < |table|
  {
    table[tag := table[tag].(client := None, num := num)]
  }

  function LessBy(num: nat, n: nat): nat {
    if n <= num then num - n else 0
  }

  function Fewer(table: seq<Slot>, tag: nat, n: nat): seq<Slot>
    requires tag < |table|
  {
    table[tag := table[tag].(num := LessBy(table[tag].num, n))]
  }

  lemma {:induction false} FewerAgain(table: seq<Slot>, tag: nat, n: nat)
    requires tag < |table|
    ensures |Fewer(table, tag, n)| == |table| && Fewer(table, tag, 0) == table
    ensures Fewer(Fewer(table, tag, n), tag, 1) == Fewer(table, tag, n + 1)
  {
  }

  /** The table without a client n of whose units were dropped. */
  function CancelTable(table: seq<Slot>, tag: nat, n: nat): seq<Slot> {
    if tag >= |table| then table
    else
      var left := ForgetClient(table, tag, LessBy(table[tag].num, n));
      if tag + 1 == |table| && left[tag].num == 0 then Trim(left) else left
  }

  /** Once c is cancelled, its slot, if it has one, is nobody's. */
  lemma {:induction false} CancelAgrees(table: seq<Slot>, trans: map<TransId, Trans>, c: TransId, num: nat)
    requires ClientsAgree(table, trans, -1) && c in trans && trans[c].state.Executing?
    requires trans[c].slot.Some? ==> table[trans[c].slot.value].owner == c
    ensures var trans' := trans[c := AfterCancel(trans[c])];
      if trans[c].slot.Some?
      then ClientsAgree(ForgetClient(table, trans[c].slot.value, num), trans', -1)
      else ClientsAgree(table, trans', -1)
  {
    var trans' := trans[c := AfterCancel(trans[c])];
    var left := if trans[c].slot.Some? then ForgetClient(table, trans[c].slot.value, num) else table;
    forall i | 0 <= i < |left| && left[i].client.Some? ensures SlotAgrees(left[i], i, trans', false) {
      assert left[i] == table[i] && SlotAgrees(table[i], i, trans, false);
    }
    forall i | 0 <= i < |left| && left[i].client == None && left[i].num > 0
      ensures left[i].owner in trans' && trans'[left[i].owner].state.Canceled?
    {
      if trans[c].slot.None? || i != trans[c].slot.value {
        assert left[i] == table[i];
      }
    }
  }

  /** The slot of a transaction is where a search for it ends. */
  lemma {:induction false} SlotFound(table: seq<Slot>, trans: map<TransId, Trans>, c: TransId)
    requires ClientsAgree(table, trans, -1) && c in trans && trans[c].state.Executing?
    ensures trans[c].slot.Some? <==> SlotOf(table, Some(c)) < |table|
    ensures trans[c].slot.Some? ==> SlotOf(table, Some(c)) == trans[c].slot.value
  {
    var t := SlotOf(table, Some(c));
    if t < |table| {
      assert SlotAgrees(table[t], t, trans, false);
    }
  }

  lemma {:induction false} CancelKeeps(table: seq<Slot>, trans: map<TransId, Trans>, c: TransId, n: nat)
    requires ClientsAgree(table, trans, -1) && Trimmed(table, -1)
    requires c in trans && trans[c].state.Executing?
    requires forall t :: 0 <= t < |table| && table[t].client.Some? ==> table[t].client.value == table[t].owner
    ensures var after := CancelTable(table, SlotOf(table, Some(c)), n);
      ClientsAgree(after, trans[c := AfterCancel(trans[c])], -1) && Trimmed(after, -1)
  {
    var t := SlotOf(table, Some(c));
    SlotFound(table, trans, c);
    if t < |table| {
      assert table[t].client.Some? && table[t].owner == c;
      var left := ForgetClient(table, t, LessBy(table[t].num, n));
      CancelAgrees(table, trans, c, LessBy(table[t].num, n));
      hide ClientsAgree, SlotOf;
      if t + 1 == |table| && left[t].num == 0 {
        TrimAgrees(left, trans[c := AfterCancel(trans[c])]);
      }
    } else {
      CancelAgrees(table, trans, c, 0);
    }
  }

  // ------------------------------------------------- orders that come too late

  predicate NoClient(table: seq<Slot>, tag: nat) {
    tag < |table| ==> table[tag].client.None?
  }

  /** Whoever has a slot is not meant by any order to cancel that is on its way. */
  ghost predicate Clear(table: seq<Slot>, f: Floor) {
    forall t :: f.Doomed(t) ==> NoClient(table, t)
  }

  predicate NoneCancelled(trans: map<TransId, Trans>) {
    forall c <- trans :: NoCancelled(trans[c].handed)
  }

  predicate NoCancelled(handed: seq<HandBack>) {
    forall i :: 0 <= i < |handed| ==> handed[i].state != Cancelled
  }

  lemma {:induction false} ClearOn(table: seq<Slot>, f: Floor, g: Floor)
    requires Clear(table, f) && NoMoreDoomed(f, g)
    ensures Clear(table, g)
  {
  }

  lemma {:induction false} ClearLess(table: seq<Slot>, table': seq<Slot>, f: Floor)
    requires Clear(table, f) && forall t :: NoClient(table, t) ==> NoClient(table', t)
    ensures Clear(table', f)
  {
  }

  /** A tag that no unit carries is given to a client while no order to cancel it waits. */
  lemma {:induction false} ClearAttach(table: seq<Slot>, f: Floor, g: Floor, tag: nat, slot: Slot)
    requires Clear(table, f) && NoMoreDoomed(f, g) && tag <= |table|
    requires !f.CancelWaits(tag) && forall m :: m in f.AllMarks() ==> m.tag != tag
    ensures Clear(PutSlot(table, tag, slot), g)
  {
    hide Floor.AllMarks;
    forall t | g.Doomed(t) ensures NoClient(PutSlot(table, tag, slot), t) {
      assert f.Doomed(t);
      if t == tag {
        var u :| u in f.products && u.tag == tag && u.state == Cancelled;
        ProductMark(f, u);
      } else {
        assert NoClient(table, t);
      }
    }
  }

  /** A cancelled client has no slot any more. */
  lemma {:induction false} ClearCancel(table: seq<Slot>, f: Floor, g: Floor, tag: nat, n: nat)
    requires Clear(table, f) && tag < |table|
    requires forall t :: g.Doomed(t) ==> f.Doomed(t) || t == tag
    ensures Clear(CancelTable(table, tag, n), g)
  {
    var left := ForgetClient(table, tag, LessBy(table[tag].num, n));
    TrimShortens(left);
    hide Trim;
    forall t | g.Doomed(t) ensures NoClient(CancelTable(table, tag, n), t) {
      assert t != tag ==> NoClient(table, t);
      assert NoClient(left, t);
    }
  }

  lemma {:induction false} NoClientLeft(table: seq<Slot>, tag: nat, t: nat)
    requires tag < |table| && NoClient(table, t)
    ensures NoClient(LeftTable(table, tag), t)
  {
    var left := if table[tag].num == 0 then table[tag := table[tag].(client := None)] else table;
    TrimShortens(left);
    hide Trim;
  }

  // -------------------------------- callbacks that change the current storage

  /** A callback that changes the current storage hands other units back before it returns.
      `table` is what it is when the callback of such a unit returns, whatever that callback
      queued again or started: then the slot of the outer callback is erased exactly if the
      other unit was of the last slot, and no slot from the outer one on has requests. */
  lemma {:induction false} NestedDoneErases(table: seq<Slot>, outer: nat, inner: nat)
    requires outer < |table| && inner < |table|
    ensures outer >= |LeftTable(table, inner)| <==>
      inner + 1 == |table| && forall i :: outer <= i < |table| ==> table[i].num == 0
  {
    var left := if table[inner].num == 0 then table[inner := table[inner].(client := None)] else table;
    TrimErases(left, outer);
    assert forall i :: 0 <= i < |table| ==> left[i].num == table[i].num;
  }

  /** The slot of an outer callback whose unit was the last of its transaction counts as
      free: a transaction that is started meanwhile takes it exactly if no slot before it
      is free. */
  lemma {:induction false} NestedAttachTakes(table: seq<Slot>, outer: nat, d: TransId, n: nat)
    requires outer < |table| && table[outer].num == 0 && n > 0
    ensures TableAfterAttach(table, d, n)[outer] == Slot(Some(d), n, d) && FreeSlot(table) == outer <==>
      forall i :: 0 <= i < outer ==> table[i].num > 0
  {
    assert FreeSlot(table) <= outer;
  }

  /** How many of the first n units of transaction c come back for good. */
  function LostOf(semi: seq<Unit>, e: MediaEvent, rs: seq<Reaction>, c: TransId, n: nat): nat
    requires n <= |semi| == |rs|
  {
    if n == 0 then 0
    else
      var u := semi[n - 1];
      var verdict := MediaVerdict(e, u);
      LostOf(semi, e, rs, c, n - 1) +
        (if u.owner == c && verdict.Some? && !Requeues(u.(state := verdict.value), rs[n - 1]) then 1 else 0)
  }

  /** How many come back for good: those on the new current medium already, and those that
      fail. */
  lemma {:induction false} LostExactly(semi: seq<Unit>, p: Priority, rs: seq<Reaction>, c: TransId, n: nat)
    requires n <= |semi| == |rs|
    ensures LostOf(semi, Inactive(p), rs, c, n) == FailingUnits(semi, Inactive(p), rs, c, n)
    ensures LostOf(semi, CurrentChanged(p), rs, c, n)
      == FailingUnits(semi, CurrentChanged(p), rs, c, n) + ArrivedUnits(semi, p, c, n)
  {
    if n > 0 {
      LostExactly(semi, p, rs, c, n - 1);
    }
  }

  /** The units of a transaction that stay on their medium, since it is the current one. */
  function ArrivedUnits(semi: seq<Unit>, p: Priority, c: TransId, n: nat): nat
    requires n <= |semi|
  {
    if n == 0 then 0
    else ArrivedUnits(semi, p, c, n - 1) +
         (if semi[n - 1].owner == c && semi[n - 1].autoDest && semi[n - 1].src == p then 1 else 0)
  }

  lemma {:induction false} RequeuedConcat(a: seq<HandBack>, b: seq<HandBack>)
    ensures Requeued(a + b) == Requeued(a) + Requeued(b)
    decreases |b|
  {
    if b == [] {
      assert a + b == a;
    } else {
      var last := |b| - 1;
      assert (a + b)[..|a + b| - 1] == a + b[..last];
      RequeuedConcat(a, b[..last]);
    }
  }

  lemma {:induction false} AnswersCount(
      trans: map<TransId, Trans>, semi: seq<Unit>, e: MediaEvent, rs: seq<Reaction>, c: TransId, n: nat)
    requires n <= |semi| == |rs| && c in trans && !trans[c].state.Canceled?
    ensures |Answers(trans, semi, e, rs, c, n)| == Requeued(Answers(trans, semi, e, rs, c, n)) + LostOf(semi, e, rs, c, n)
  {
    hide MediaVerdict, AnswersOf, Requeues;
    if n > 0 {
      AnswersCount(trans, semi, e, rs, c, n - 1);
      OneAnswerCounts(trans, semi, e, rs, c, n);
    }
  }

  lemma {:induction false} OneAnswerCounts(
      trans: map<TransId, Trans>, semi: seq<Unit>, e: MediaEvent, rs: seq<Reaction>, c: TransId, n: nat)
    requires 0 < n <= |semi| == |rs| && c in trans && !trans[c].state.Canceled?
    ensures var before, after := Answers(trans, semi, e, rs, c, n - 1), Answers(trans, semi, e, rs, c, n);
      var lost := LostOf(semi, e, rs, c, n) - LostOf(semi, e, rs, c, n - 1);
      |after| - |before| == Requeued(after) - Requeued(before) + lost
  {
    var u, before := semi[n - 1], Answers(trans, semi, e, rs, c, n - 1);
    hide Requeues;
    if u.owner == c && MediaVerdict(e, u).Some? {
      var item := u.(state := MediaVerdict(e, u).value);
      var h := HandBack(item.state, Requeues(item, rs[n - 1]));
      assert Answers(trans, semi, e, rs, c, n) == before + [h];
      assert (before + [h])[..|before|] == before;
    } else {
      assert Answers(trans, semi, e, rs, c, n) == before;
    }
  }

  lemma {:induction false} LentAgrees(table: seq<Slot>, trans: map<TransId, Trans>, tag: nat, c: TransId)
    requires ClientsAgree(table, trans, -1) && tag < |table| && table[tag].num >= 2
    requires c in trans && trans[c].state.Executing? && table[tag].client == Some(c)
    ensures trans[c].slot == Some(tag) && trans[c].itemNum == table[tag].num
    ensures ClientsAgree(
              table[tag := table[tag].(num := table[tag].num - 1)],
              trans[c := trans[c].(itemNum := trans[c].itemNum - 1)], -1)
  {
    var table' := table[tag := table[tag].(num := table[tag].num - 1)];
    var trans' := trans[c := trans[c].(itemNum := trans[c].itemNum - 1)];
    assert SlotAgrees(table[tag], tag, trans, false);
    forall i | 0 <= i < |table'| && table'[i].client.Some? ensures SlotAgrees(table'[i], i, trans', false) {
      assert SlotAgrees(table[i], i, trans, false);
    }
    forall i | 0 <= i < |table'| && table'[i].client.None? && table'[i].num > 0
      ensures table'[i].owner in trans' && trans'[table'[i].owner].state.Canceled?
    {
      assert table'[i] == table[i];
    }
  }

  lemma {:induction false} LentBooks(trans: map<TransId, Trans>, c: TransId)
    requires AllAccounts(trans, None) && c in trans && trans[c].state.Executing? && trans[c].itemNum > 0
    ensures AllAccounts(trans[c := trans[c].(itemNum := trans[c].itemNum - 1)], Some(c))
  {
    assert Books(trans[c], false);
    var t := trans[c].(itemNum := trans[c].itemNum - 1);
    assert t.(itemNum := t.itemNum + 1) == trans[c];
    hide Accounts;
  }

  /** Taking the unit in hand off the count and the books. */
  lemma {:induction false} UnitLent(table: seq<Slot>, trans: map<TransId, Trans>, marks: multiset<Mark>, m: Mark)
    requires Sound(table, trans, marks + multiset{m}, -1, None) && m.tag < |table| && table[m.tag].num >= 2
    requires m.owner in trans && trans[m.owner].state.Executing?
    ensures table[m.tag].client == Some(m.owner) && trans[m.owner].slot == Some(m.tag)
    ensures trans[m.owner].itemNum == table[m.tag].num
    ensures var t := trans[m.owner];
      Sound(table[m.tag := table[m.tag].(num := table[m.tag].num - 1)],
            trans[m.owner := t.(itemNum := t.itemNum - 1)], marks, -1, Some(m.owner))
  {
    hide Matches, ClientsAgree, AllAccounts;
    CountedUnitHasSlot(table, marks, m);
    ClientIsOwner(table, marks + multiset{m}, m.tag);
    OwnSlot(table, trans, m);
    LentAgrees(table, trans, m.tag, m.owner);
    LentBooks(trans, m.owner);
  }

  lemma {:induction false} ClientIsOwner(table: seq<Slot>, marks: multiset<Mark>, t: nat)
    requires Matches(table, marks) && t < |table|
    ensures table[t].client.Some? ==> table[t].client.value == table[t].owner
  {
  }

  /** The slot with the tag of an executing transaction's unit is the transaction's. */
  lemma {:induction false} OwnSlot(table: seq<Slot>, trans: map<TransId, Trans>, m: Mark)
    requires ClientsAgree(table, trans, -1) && m.tag < |table| && table[m.tag].num > 0 && table[m.tag].owner == m.owner
    requires table[m.tag].client.Some? ==> table[m.tag].client.value == table[m.tag].owner
    requires m.owner in trans && trans[m.owner].state.Executing?
    ensures table[m.tag].client == Some(m.owner)
  {
  }

  /** The unit in hand counts again: the workshop is as it is when any unit is handed back. */
  lemma {:induction false} UnitReturned(table: seq<Slot>, trans: map<TransId, Trans>, marks: multiset<Mark>, tag: nat, c: TransId)
    requires Sound(table, trans, marks, -1, Some(c)) && c in trans && trans[c].state.Executing? && trans[c].slot == Some(tag)
    ensures tag < |table| && table[tag].client == Some(c) && table[tag].owner == c && table[tag].num > 0
    ensures var returned := trans[c := trans[c].(itemNum := trans[c].itemNum + 1)];
      && ClientsAgree(OneMoreRequest(table, tag), returned, -1) && Trimmed(OneMoreRequest(table, tag), -1)
      && AllAccounts(returned, None) && Evolves(trans, returned)
  {
    ReturnedBooks(trans, c);
    ReturnedAgrees(table, trans, tag, c);
    ClientIsOwner(table, marks, tag);
    hide Matches, ClientsAgree, AllAccounts, Evolves;
  }

  lemma {:induction false} ReturnedBooks(trans: map<TransId, Trans>, c: TransId)
    requires AllAccounts(trans, Some(c)) && c in trans && trans[c].state.Executing? && trans[c].slot.Some?
    ensures var returned := trans[c := trans[c].(itemNum := trans[c].itemNum + 1)];
      AllAccounts(returned, None) && Evolves(trans, returned)
  {
    assert Books(trans[c], true);
    hide Accounts;
  }

  lemma {:induction false} ReturnedAgrees(table: seq<Slot>, trans: map<TransId, Trans>, tag: nat, c: TransId)
    requires ClientsAgree(table, trans, -1) && c in trans && trans[c].state.Executing? && trans[c].slot == Some(tag)
    ensures tag < |table| && table[tag].client == Some(c) && table[tag].num > 0
    ensures ClientsAgree(OneMoreRequest(table, tag), trans[c := trans[c].(itemNum := trans[c].itemNum + 1)], -1)
  {
    var more, returned := OneMoreRequest(table, tag), trans[c := trans[c].(itemNum := trans[c].itemNum + 1)];
    assert SlotAgrees(table[tag], tag, trans, false);
    forall i | 0 <= i < |more| && more[i].client.Some? ensures SlotAgrees(more[i], i, returned, false) {
      assert SlotAgrees(table[i], i, trans, false);
    }
    forall i | 0 <= i < |more| && more[i].client.None? && more[i].num > 0
      ensures more[i].owner in returned && returned[more[i].owner].state.Canceled?
    {
      assert more[i] == table[i];
    }
  }

  lemma {:induction false} LentEvolves(trans: map<TransId, Trans>, c: TransId)
    requires c in trans && trans[c].state.Executing? && trans[c].slot.Some? && trans[c].itemNum > 0
    ensures Evolves(trans, trans[c := trans[c].(itemNum := trans[c].itemNum - 1)])
  {
  }

  /** Handing back a unit that was taken off the books before. */
  lemma {:induction false} LentHandBack(
      table: seq<Slot>, trans: map<TransId, Trans>, tag: nat, c: TransId, state: UnitState, requeued: bool)
    requires c in trans && trans[c].state.Executing? && trans[c].itemNum > 0 && trans[c].slot == Some(tag)
    requires requeued ==> state == CommonDestVanish || state == CommonDestChange
    requires tag < |table| && table[tag].client == Some(c) && Conveyed(state)
    requires var returned := trans[c := trans[c].(itemNum := trans[c].itemNum + 1)];
      && ClientsAgree(OneMoreRequest(table, tag), returned, -1) && Trimmed(OneMoreRequest(table, tag), -1)
      && AllAccounts(returned, None) && Evolves(trans, returned)
    ensures SlotOf(table, Some(c)) == tag
    ensures var t := AfterHandBack(trans[c].(itemNum := trans[c].itemNum + 1), state, requeued);
      var trans', table' := trans[c := t], if requeued then OneMoreRequest(table, tag) else table;
      && t.state.Executing? && t.handed == trans[c].handed + [HandBack(state, requeued)]
      && ClientsAgree(table', trans', tag) && Trimmed(table', tag) && AllAccounts(trans', None) && Evolves(trans, trans')
  {
    var returned := trans[c := trans[c].(itemNum := trans[c].itemNum + 1)];
    var t := AfterHandBack(returned[c], state, requeued);
    assert t.state.Executing? && t.handed == trans[c].handed + [HandBack(state, requeued)];
    assert returned[c := t] == trans[c := t];
    hide ClientsAgree, AllAccounts, Trimmed, Evolves, AfterHandBack;
    HandBackKeeps(table, returned, None, tag, c, state, requeued);
    OnlySlot(table, returned, tag, c);
    EvolvesOn(trans, returned, trans[c := t]);
  }

  lemma {:induction false} CancelSound(
      table: seq<Slot>, trans: map<TransId, Trans>, marks: multiset<Mark>, c: TransId, n: nat)
    requires Sound(table, trans, marks, -1, None) && c in trans && trans[c].state.Executing?
    ensures var trans', table' := trans[c := AfterCancel(trans[c])], CancelTable(table, SlotOf(table, Some(c)), n);
      ClientsAgree(table', trans', -1) && Trimmed(table', -1) && AllAccounts(trans', None)
  {
    hide Matches, ClientsAgree, Trimmed, AllAccounts, SlotOf, CancelTable;
    ClientsAreOwners(table, marks);
    CancelKeeps(table, trans, c, n);
    CancelBooks(trans, c);
  }

  /** The same answers while nobody was cancelled meanwhile. */
  lemma {:induction false} AnswersSame(
      a: map<TransId, Trans>, b: map<TransId, Trans>, semi: seq<Unit>, e: MediaEvent, rs: seq<Reaction>, c: TransId, n: nat)
    requires n <= |semi| == |rs| && a.Keys == b.Keys && forall d <- a :: a[d].state == b[d].state
    ensures Answers(a, semi, e, rs, c, n) == Answers(b, semi, e, rs, c, n)
  {
    if n > 0 {
      AnswersSame(a, b, semi, e, rs, c, n - 1);
    }
  }

  lemma {:induction false} ClientsAreOwners(table: seq<Slot>, marks: multiset<Mark>)
    requires Matches(table, marks)
    ensures forall t :: 0 <= t < |table| && table[t].client.Some? ==> table[t].client.value == table[t].owner
  {
  }

  lemma {:induction false} CancelBooks(trans: map<TransId, Trans>, c: TransId)
    requires AllAccounts(trans, None) && c in trans
    ensures AllAccounts(trans[c := AfterCancel(trans[c])], None)
  {
    forall d | d in trans ensures Mine(trans[d].list, d) && Equipped(trans[d].list) {
      assert Books(trans[d], false);
    }
  }

  /** After the other units were settled, the transaction still executes, with a request
      left, exactly if not all its other units came back for good. */
  lemma {:induction false} LentStays(
      table: seq<Slot>, before: map<TransId, Trans>, after: map<TransId, Trans>,
      semi: seq<Unit>, e: MediaEvent, rs: seq<Reaction>, c: TransId)
    requires |semi| == |rs| && ClientsAgree(table, after, -1)
    requires AllAccounts(before, Some(c)) && AllAccounts(after, Some(c)) && Evolves(before, after)
    requires c in before && before[c].state.Executing? && before[c].slot.Some?
    requires Answered(before, after, semi, e, rs, |semi|)
    ensures c in after && (after[c].state.Executing? || after[c].state.Finished?)
    ensures after[c].state.Executing? <==> LostOf(semi, e, rs, c, |semi|) < before[c].itemNum
    ensures after[c].state.Executing? ==> after[c].itemNum == before[c].itemNum - LostOf(semi, e, rs, c, |semi|) > 0
    ensures after[c].state.Executing? <==> exists t :: 0 <= t < |table| && table[t].client == Some(c)
  {
    AnswersCount(before, semi, e, rs, c, |semi|);
    var answers := Answers(before, semi, e, rs, c, |semi|);
    RequeuedConcat(before[c].handed, answers);
    assert after[c].handed == before[c].handed + answers;
    assert Books(before[c], true) && Books(after[c], true);
    hide Answers, Answered, LostOf, Requeued, Failures;
    if after[c].state.Executing? {
      var t := after[c].slot.value;
      assert SlotAgrees(table[t], t, after, false);
    }
    forall t | 0 <= t < |table| && table[t].client == Some(c) ensures after[c].state.Executing? {
      assert SlotAgrees(table[t], t, after, false);
    }
  }

  // ------------------------------------------------------------- whole runs

  /** Transactions that ended stay as they are: they hear nothing, and end once. */
  predicate EndedStay(before: map<TransId, Trans>, after: map<TransId, Trans>) {
    forall c <- before ::
      c in after && (before[c].state.Finished? || before[c].state.Canceled? ==> after[c] == before[c])
  }

  lemma {:induction false} EndedStayOn(a: map<TransId, Trans>, b: map<TransId, Trans>, c: map<TransId, Trans>)
    requires EndedStay(a, b) && EndedStay(b, c)
    ensures EndedStay(a, c)
  {
  }

  /** Every count is right: that of a slot, of its transaction, and the number of its
      units in the queues and with the workers. */
  predicate CountsAgree(table: seq<Slot>, trans: map<TransId, Trans>, marks: multiset<Mark>) {
    && (forall c <- trans :: trans[c].state.Executing? && trans[c].slot.Some? ==>
          var t := trans[c].slot.value;
          && t < MAX_SLOTS && t < |table| && table[t].client == Some(c)
          && table[t].num == trans[c].itemNum == marks[Mark(t, c)] > 0)
    && (forall c <- trans :: trans[c].state.Finished? ==> Accounts(trans[c]) && forall m :: m in marks ==> m.owner != c)
  }

  lemma {:induction false} SoundCounts(table: seq<Slot>, trans: map<TransId, Trans>, marks: multiset<Mark>)
    requires Sound(table, trans, marks, -1, None)
    ensures CountsAgree(table, trans, marks)
  {
    forall c | c in trans && trans[c].state.Executing? && trans[c].slot.Some?
      ensures var t := trans[c].slot.value;
        && t < MAX_SLOTS && t < |table| && table[t].client == Some(c)
        && table[t].num == trans[c].itemNum == marks[Mark(t, c)] > 0
    {
      CountIsLiveUnits(table, trans, marks, c);
      assert SlotAgrees(table[trans[c].slot.value], trans[c].slot.value, trans, false);
    }
    forall c | c in trans && trans[c].state.Finished? ensures forall m :: m in marks ==> m.owner != c {
      CountIsLiveUnits(table, trans, marks, c);
    }
  }
}
