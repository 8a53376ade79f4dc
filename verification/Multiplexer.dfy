/** The dispatcher of file events. While it goes through the handlers that have events,
    timers and handlers register and unregister any handler and change its events. */
module Multiplexer {
  import opened Basics

  type HandlerId = nat

  type Events = bv16

  const POLL_ARRAY_INC_STEP := 32

  datatype PollingEntry = PollingEntry(handler: HandlerId, events: Events)

  /** One entry of the two arrays that are polled: whose it is, what is waited for, and what
      poll found. */
  datatype Slot = Slot(handler: Option<HandlerId>, wants: Events, revents: Events)

  datatype Op =
    | Register(h: HandlerId, events: Events)
    | Unregister(h: HandlerId)
    | AddEvents(h: HandlerId, events: Events)
    | DelEvents(h: HandlerId, events: Events)
    | ShallQuit

  /** A call of a handler's process. `registered` is what a look-up would have said at
      that moment. */
  datatype Call = Call(slot: nat, handler: HandlerId, events: Events, registered: bool)

  function Without(a: Events, e: Events): Events {
    a & !e
  }

  function Join(a: Events, e: Events): Events {
    a | e
  }

  predicate Covers(a: Events, e: Events) {
    a & e == e
  }

  predicate Shares(a: Events, e: Events) {
    a & e != 0
  }

  // -------------------------------------------------------- the state as a value

  function Find(polling: seq<PollingEntry>, h: HandlerId): (i: nat)
    ensures i <= |polling| && (i < |polling| ==> polling[i].handler == h)
    ensures forall k :: 0 <= k < i ==> polling[k].handler != h
  {
    if polling == [] || polling[0].handler == h then 0 else 1 + Find(polling[1..], h)
  }

  predicate Registered(polling: seq<PollingEntry>, h: HandlerId) {
    Find(polling, h) < |polling|
  }

  /** The first slot of a handler, or the end of the array. */
  function SlotOf(slots: seq<Slot>, h: HandlerId): (i: nat)
    ensures i <= |slots| && (i < |slots| ==> slots[i].handler == Some(h))
    ensures forall k :: 0 <= k < i ==> slots[k].handler != Some(h)
  {
    if slots == [] || slots[0].handler == Some(h) then 0 else 1 + SlotOf(slots[1..], h)
  }

  /** The slots to poll: the handlers that want any event. */
  function SlotsOf(polling: seq<PollingEntry>): seq<Slot> {
    if polling == [] then []
    else if polling[0].events != 0 then [Slot(Some(polling[0].handler), polling[0].events, 0)] + SlotsOf(polling[1..])
    else SlotsOf(polling[1..])
  }

  function Emptied(s: Slot): Slot {
    s.(handler := None, revents := 0)
  }

  function SlotEmptied(slots: seq<Slot>, h: HandlerId): seq<Slot> {
    var k := SlotOf(slots, h);
    if k < |slots| then slots[k := Emptied(slots[k])] else slots
  }

  function FoundTaken(slots: seq<Slot>, h: HandlerId, e: Events): seq<Slot> {
    var k := SlotOf(slots, h);
    if k < |slots| then slots[k := slots[k].(revents := Without(slots[k].revents, e))] else slots
  }

  /** The slots are those to poll, whatever poll found in them. */
  predicate UpToDate(polling: seq<PollingEntry>, slots: seq<Slot>) {
    && |slots| == |SlotsOf(polling)|
    && forall i :: 0 <= i < |slots| ==> slots[i].(revents := 0) == SlotsOf(polling)[i]
  }

  predicate EachOnce(polling: seq<PollingEntry>) {
    forall i, j :: 0 <= i < j < |polling| ==> polling[i].handler != polling[j].handler
  }

  predicate OneSlotEach(slots: seq<Slot>) {
    forall i, j :: 0 <= i < j < |slots| && slots[i].handler.Some? ==> slots[i].handler != slots[j].handler
  }

  predicate InUse(polling: seq<PollingEntry>, dirty: bool, slots: seq<Slot>) {
    forall i :: 0 <= i < |slots| ==>
      if slots[i].handler.Some? then Registered(polling, slots[i].handler.value) else dirty && slots[i].revents == 0
  }

  datatype Mux = Mux(running: bool, polling: seq<PollingEntry>, dirty: bool, slots: seq<Slot>) {

    /** No handler is registered twice or has two slots; a slot in use is that of a
        registered handler; an emptied slot has no events; and without the dirty flag
        no slot was emptied, and the slots are those to poll. */
    predicate Valid() {
      && EachOnce(polling) && OneSlotEach(slots) && InUse(polling, dirty, slots)
      && (!dirty ==> UpToDate(polling, slots))
    }

    function Unregistered(h: HandlerId): Mux {
      var i := Find(polling, h);
      if i == |polling| then this
      else this.(polling := polling[..i] + polling[i + 1..], dirty := true, slots := SlotEmptied(slots, h))
    }

    function EventsTaken(h: HandlerId, e: Events): Mux {
      var i := Find(polling, h);
      if i == |polling| || !Shares(polling[i].events, e) then this
      else
        this.(polling := polling[i := PollingEntry(h, Without(polling[i].events, e))], dirty := true,
              slots := FoundTaken(slots, h, e))
    }

    function Apply(op: Op): Mux {
      match op
      case Register(h, e) =>
        if Registered(polling, h) then this else this.(polling := polling + [PollingEntry(h, e)], dirty := true)
      case Unregister(h) => Unregistered(h)
      case AddEvents(h, e) =>
        var i := Find(polling, h);
        if i == |polling| || Covers(polling[i].events, e) then this
        else this.(polling := polling[i := PollingEntry(h, Join(polling[i].events, e))], dirty := true)
      case DelEvents(h, e) => EventsTaken(h, e)
      case ShallQuit => this.(running := false)
    }

    function ApplyAll(ops: seq<Op>): Mux
      decreases ops
    {
      if ops == [] then this else Apply(ops[0]).ApplyAll(ops[1..])
    }

    function Prepare(): Mux {
      if dirty then this.(slots := SlotsOf(polling), dirty := false) else this
    }

    /** What poll found. */
    function Polled(revents: seq<Events>): Mux
      requires |revents| == |slots|
    {
      this.(slots := seq(|slots|, i requires 0 <= i < |slots| => slots[i].(revents := revents[i])))
    }
  }

  /** What the callbacks do, by slot. */
  function ScriptOf(scripts: seq<seq<Op>>, i: nat): seq<Op> {
    if i < |scripts| then scripts[i] else []
  }

  /** The loop over the slots from i on: the state after it, and the calls it made. */
  function Dispatch(m: Mux, i: nat, scripts: seq<seq<Op>>): (Mux, seq<Call>)
    requires m.Valid()
    decreases |m.slots| - i
  {
    if i >= |m.slots| then (m, [])
    else if m.slots[i].revents == 0 then Dispatch(m, i + 1, scripts)
    else
      var call := Call(i, m.slots[i].handler.value, m.slots[i].revents, Registered(m.polling, m.slots[i].handler.value));
      ApplyAllKeeps(m, ScriptOf(scripts, i));
      var after := m.ApplyAll(ScriptOf(scripts, i));
      if !after.running then (after, [call])
      else
        var (last, calls) := Dispatch(after, i + 1, scripts);
        (last, [call] + calls)
  }

  // -------------------------------------------------------------- what is kept

  /** The events of a are among those of b. */
  predicate Within(a: Events, b: Events) {
    a & !b == 0
  }

  /** What callbacks may do to slots: empty them, or take events away. */
  predicate Shrinks(before: seq<Slot>, after: seq<Slot>) {
    && |after| == |before|
    && forall i :: 0 <= i < |before| ==>
        && after[i].wants == before[i].wants
        && (after[i].handler == before[i].handler || after[i] == Emptied(before[i]))
        && Within(after[i].revents, before[i].revents)
  }

  lemma {:induction false} WithinOn(a: Events, b: Events, c: Events)
    requires Within(a, b) && Within(b, c)
    ensures Within(a, c)
  {
  }

  lemma {:induction false} WithinSelf(a: Events, e: Events)
    ensures Within(a, a) && Within(0, a) && Within(Without(a, e), a) && !Shares(Without(a, e), e)
    ensures Within(a, 0) ==> a == 0
  {
  }

  lemma {:induction false} ShrinksSelf(s: seq<Slot>)
    ensures Shrinks(s, s)
  {
    forall i | 0 <= i < |s| ensures Within(s[i].revents, s[i].revents) {
      WithinSelf(s[i].revents, 0);
    }
  }

  lemma {:induction false} ShrinksOn(a: seq<Slot>, b: seq<Slot>, c: seq<Slot>)
    requires Shrinks(a, b) && Shrinks(b, c)
    ensures Shrinks(a, c)
  {
    hide Within;
    forall i | 0 <= i < |a| ensures Within(c[i].revents, a[i].revents) {
      WithinOn(c[i].revents, b[i].revents, a[i].revents);
    }
    forall i | 0 <= i < |a| && b[i] == Emptied(a[i]) ensures c[i] == Emptied(a[i]) {
      WithinSelf(c[i].revents, 0);
    }
  }

  lemma {:induction false} ShrinksAt(s: seq<Slot>, k: nat, slot: Slot)
    requires k < |s| && (slot.handler == s[k].handler || slot == Emptied(s[k])) && slot.wants == s[k].wants
    requires Within(slot.revents, s[k].revents)
    ensures Shrinks(s, s[k := slot])
  {
    ShrinksSelf(s);
    hide Within;
  }

  lemma {:induction false} EntryRemoved(polling: seq<PollingEntry>, i: nat)
    requires EachOnce(polling) && i < |polling|
    ensures var after := polling[..i] + polling[i + 1..];
      && EachOnce(after)
      && !Registered(after, polling[i].handler)
      && (forall h :: h != polling[i].handler && Registered(polling, h) ==> Registered(after, h))
  {
    var after := polling[..i] + polling[i + 1..];
    assert forall d :: 0 <= d < |after| ==> after[d] == polling[if d < i then d else d + 1];
    hide Find;
    forall h | h != polling[i].handler && Registered(polling, h) ensures Registered(after, h) {
      var d := Find(polling, h);
      assert after[if d < i then d else d - 1] == polling[d];
    }
  }

  lemma {:induction false} SlotEmptiedShape(slots: seq<Slot>, h: HandlerId)
    requires OneSlotEach(slots)
    ensures var after := SlotEmptied(slots, h);
      && Shrinks(slots, after) && SlotOf(after, h) == |slots| && OneSlotEach(after)
      && (forall s :: 0 <= s < |slots| ==>
            after[s] == if slots[s].handler == Some(h) then Emptied(slots[s]) else slots[s])
  {
    ShrinksSelf(slots);
    var k := SlotOf(slots, h);
    hide SlotOf, Within;
    if k < |slots| {
      WithinSelf(slots[k].revents, 0);
      ShrinksAt(slots, k, Emptied(slots[k]));
    }
  }

  /** An unregistered handler has no entry and no slot any more. */
  lemma {:induction false} UnregisterKeeps(m: Mux, h: HandlerId)
    requires m.Valid()
    ensures m.Apply(Unregister(h)).Valid() && Shrinks(m.slots, m.Apply(Unregister(h)).slots)
    ensures !Registered(m.Apply(Unregister(h)).polling, h)
    ensures SlotOf(m.Apply(Unregister(h)).slots, h) == |m.slots|
  {
    ShrinksSelf(m.slots);
    var i := Find(m.polling, h);
    assert m.Apply(Unregister(h)) == m.Unregistered(h);
    if i < |m.polling| {
      hide *;
      EntryRemoved(m.polling, i);
      SlotEmptiedShape(m.slots, h);
      RemovedValid(m, i, m.Unregistered(h));
    } else {
      hide Mux.Apply, Find, SlotOf, UpToDate, Shrinks;
      assert forall s :: 0 <= s < |m.slots| ==> m.slots[s].handler != Some(h);
    }
  }

  lemma {:induction false} RemovedValid(m: Mux, i: nat, after: Mux)
    requires m.Valid() && i < |m.polling| && Find(m.polling, m.polling[i].handler) == i
    requires after == m.Unregistered(m.polling[i].handler)
    ensures after.polling == m.polling[..i] + m.polling[i + 1..] && after.Valid()
    ensures after.slots == SlotEmptied(m.slots, m.polling[i].handler)
  {
    var h := m.polling[i].handler;
    hide Find, SlotOf, SlotEmptied, Shrinks, UpToDate, EachOnce, OneSlotEach;
    EntryRemoved(m.polling, i);
    SlotEmptiedShape(m.slots, h);
    hide Registered;
  }

  lemma {:induction false} ChangeKeeps(m: Mux, i: nat, e: Events)
    requires m.Valid() && i < |m.polling|
    ensures m.(polling := m.polling[i := m.polling[i].(events := e)], dirty := true).Valid()
  {
    hide Find;
    var after := m.polling[i := m.polling[i].(events := e)];
    forall s | 0 <= s < |m.slots| && m.slots[s].handler.Some?
      ensures Registered(after, m.slots[s].handler.value)
    {
      assert after[Find(m.polling, m.slots[s].handler.value)].handler == m.slots[s].handler.value;
    }
  }

  lemma {:induction false} TakeEventsKeeps(m: Mux, k: nat, e: Events)
    requires m.Valid() && m.dirty && k < |m.slots| && m.slots[k].handler.Some?
    ensures m.(slots := m.slots[k := m.slots[k].(revents := e)]).Valid()
  {
    hide Find;
  }

  /** Events that are taken away are gone from what was found, too. */
  lemma {:induction false} DelEventsKeeps(m: Mux, h: HandlerId, e: Events)
    requires m.Valid()
    ensures m.Apply(DelEvents(h, e)).Valid() && Shrinks(m.slots, m.Apply(DelEvents(h, e)).slots)
    ensures var i, k := Find(m.polling, h), SlotOf(m.slots, h);
      k < |m.slots| && i < |m.polling| && Shares(m.polling[i].events, e) ==>
        !Shares(m.Apply(DelEvents(h, e)).slots[k].revents, e)
  {
    ShrinksSelf(m.slots);
    var i, k := Find(m.polling, h), SlotOf(m.slots, h);
    hide Find, SlotOf, Within, Shares, Without, Mux.Valid;
    if i < |m.polling| && Shares(m.polling[i].events, e) {
      var left := Without(m.polling[i].events, e);
      ChangeKeeps(m, i, left);
      if k < |m.slots| {
        var slot := m.slots[k].(revents := Without(m.slots[k].revents, e));
        WithinSelf(m.slots[k].revents, e);
        ShrinksAt(m.slots, k, slot);
        TakeEventsKeeps(m.(polling := m.polling[i := PollingEntry(h, left)], dirty := true), k, slot.revents);
      }
    }
  }

  lemma {:induction false} ApplyKeeps(m: Mux, op: Op)
    requires m.Valid()
    ensures m.Apply(op).Valid() && Shrinks(m.slots, m.Apply(op).slots)
  {
    ShrinksSelf(m.slots);
    hide Find, SlotOf, Within, Shrinks;
    match op {
      case Register(h, e) =>
        var after := m.polling + [PollingEntry(h, e)];
        forall s | 0 <= s < |m.slots| && m.slots[s].handler.Some?
          ensures Registered(after, m.slots[s].handler.value)
        {
          var d := Find(m.polling, m.slots[s].handler.value);
          assert after[d] == m.polling[d];
        }
      case Unregister(h) => UnregisterKeeps(m, h);
      case AddEvents(h, e) =>
        var i := Find(m.polling, h);
        if i < |m.polling| {
          ChangeKeeps(m, i, Join(m.polling[i].events, e));
        }
      case DelEvents(h, e) => DelEventsKeeps(m, h, e);
      case ShallQuit =>
    }
  }

  lemma {:induction false} ApplyAllKeeps(m: Mux, ops: seq<Op>)
    requires m.Valid()
    ensures m.ApplyAll(ops).Valid() && Shrinks(m.slots, m.ApplyAll(ops).slots)
    decreases ops
  {
    if ops == [] {
      ShrinksSelf(m.slots);
    } else {
      ApplyKeeps(m, ops[0]);
      ApplyAllKeeps(m.Apply(ops[0]), ops[1..]);
      ShrinksOn(m.slots, m.Apply(ops[0]).slots, m.ApplyAll(ops).slots);
    }
  }

  /** The events that a handler is registered with, none if it is not registered. */
  function Wanted(polling: seq<PollingEntry>, h: HandlerId): Events {
    var i := Find(polling, h);
    if i < |polling| then polling[i].events else 0
  }

  /** A single event: every set of events has it or has nothing of it. */
  ghost predicate OneEvent(x: Events) {
    x != 0 && forall e: Events :: Shares(e, x) ==> Covers(e, x)
  }

  lemma {:induction false} EventJoined(a: Events, e: Events, x: Events)
    ensures Shares(Join(a, e), x) <==> Shares(a, x) || Shares(e, x)
    ensures Covers(a, e) && Shares(e, x) ==> Shares(a, x)
  {
  }

  lemma {:induction false} EventLeft(a: Events, e: Events, x: Events)
    requires OneEvent(x)
    ensures Shares(Without(a, e), x) <==> Shares(a, x) && !Shares(e, x)
    ensures !Shares(a, e) && Shares(e, x) ==> !Shares(a, x)
  {
    assert Shares(a, x) ==> Covers(a, x);
    assert Shares(e, x) ==> Covers(e, x);
    hide OneEvent;
  }

  lemma {:induction false} FoundAt(polling: seq<PollingEntry>, h: HandlerId, i: nat)
    requires EachOnce(polling) && i < |polling| && polling[i].handler == h
    ensures Find(polling, h) == i
  {
  }

  lemma {:induction false} FoundAfter(polling: seq<PollingEntry>, after: seq<PollingEntry>, h: HandlerId)
    requires EachOnce(after)
    requires forall d :: 0 <= d < |polling| && polling[d].handler == h ==> polling[d] in after
    requires forall d :: 0 <= d < |after| && after[d].handler == h ==> after[d] in polling
    ensures EachOnce(polling) ==> Wanted(after, h) == Wanted(polling, h) && Registered(after, h) == Registered(polling, h)
  {
    var i := Find(polling, h);
    if i < |polling| && EachOnce(polling) {
      var d :| 0 <= d < |after| && after[d] == polling[i];
      FoundAt(after, h, d);
    }
  }

  lemma {:induction false} OthersStay(m: Mux, op: Op, h: HandlerId)
    requires m.Valid() && m.Apply(op).Valid() && (op.ShallQuit? || op.h != h)
    ensures var was, now := m.polling, m.Apply(op).polling;
      Wanted(now, h) == Wanted(was, h) && Registered(now, h) == Registered(was, h)
  {
    var was, now := m.polling, m.Apply(op).polling;
    hide Find, SlotOf, SlotEmptied, FoundTaken, Join, Without, OneSlotEach, InUse, UpToDate, Wanted, Registered, Covers, Shares;
    forall d | 0 <= d < |was| && was[d].handler == h ensures was[d] in now {
      if op.Unregister? && Find(was, op.h) < |was| {
        var i := Find(was, op.h);
        assert was[d] == now[if d < i then d else d - 1];
      } else {
        assert now[d] == was[d];
      }
    }
    FoundAfter(was, now, h);
  }

  lemma {:induction false} HandlersOnce(m: Mux)
    requires m.Valid()
    ensures EachOnce(m.polling)
  {
  }

  lemma {:induction false} OwnChanges(m: Mux, op: Op, x: Events)
    requires m.Valid() && !op.ShallQuit? && OneEvent(x)
    ensures var h, was, now := op.h, m.polling, m.Apply(op).polling;
      match op
      case Register(_, e) =>
        && Registered(now, h)
        && (if Registered(was, h) then now == was else Wanted(now, h) == e)
      case Unregister(_) => !Registered(now, h) && Wanted(now, h) == 0
      case AddEvents(_, e) =>
        && Registered(now, h) == Registered(was, h)
        && (Shares(Wanted(now, h), x) <==> Shares(Wanted(was, h), x) || (Registered(was, h) && Shares(e, x)))
      case DelEvents(_, e) =>
        && Registered(now, h) == Registered(was, h)
        && (Shares(Wanted(now, h), x) <==> Shares(Wanted(was, h), x) && !Shares(e, x))
  {
    assert !Shares(0, x);
    hide Mux.Valid, EachOnce, Find, SlotOf, SlotEmptied, FoundTaken, Join, Without, Covers, Shares, OneEvent, Shrinks;
    var h, was, now := op.h, m.polling, m.Apply(op).polling;
    var i := Find(was, h);
    ApplyKeeps(m, op);
    HandlersOnce(m.Apply(op));
    match op {
      case Unregister(_) => UnregisterKeeps(m, h);
      case Register(_, _) =>
        if i == |was| {
          FoundAt(now, h, i);
        }
      case AddEvents(_, e) =>
        if i < |was| {
          EventJoined(was[i].events, e, x);
          FoundAt(now, h, i);
        }
      case DelEvents(_, e) =>
        if i < |was| {
          EventLeft(was[i].events, e, x);
          FoundAt(now, h, i);
        }
    }
  }

  /** What a handler is registered with after an operation: it is added with the given events,
      gets those that are added, loses exactly those that are taken away, and keeps what it
      had whatever is done to others. */
  lemma {:induction false} WantedAfter(m: Mux, op: Op, h: HandlerId, x: Events)
    requires m.Valid() && OneEvent(x)
    ensures var was, now := m.polling, m.Apply(op).polling;
      && (Registered(now, h) <==> (Registered(was, h) && op != Unregister(h)) || (op.Register? && op.h == h))
      && (Shares(Wanted(now, h), x) <==> match op
          case Register(g, e) => if g == h && !Registered(was, h) then Shares(e, x) else Shares(Wanted(was, h), x)
          case Unregister(g) => g != h && Shares(Wanted(was, h), x)
          case AddEvents(g, e) => Shares(Wanted(was, h), x) || (g == h && Registered(was, h) && Shares(e, x))
          case DelEvents(g, e) => Shares(Wanted(was, h), x) && !(g == h && Shares(e, x))
          case ShallQuit => Shares(Wanted(was, h), x))
  {
    ApplyKeeps(m, op);
    if !op.ShallQuit? && op.h == h {
      OwnChanges(m, op, x);
    } else {
      OthersStay(m, op, h);
    }
    hide *;
  }

  /** Every slot to poll is that of one entry, and they keep the order of the entries. */
  lemma {:induction false} SlotsOfShape(polling: seq<PollingEntry>, i: nat)
    requires i < |SlotsOf(polling)|
    ensures SlotsOf(polling)[i].handler.Some?
    ensures SlotsOf(polling)[i].wants != 0 && SlotsOf(polling)[i].revents == 0
    ensures exists d ::
      && 0 <= d < |polling|
      && polling[d] == PollingEntry(SlotsOf(polling)[i].handler.value, SlotsOf(polling)[i].wants)
  {
    var rest := SlotsOf(polling[1..]);
    if polling[0].events == 0 || i > 0 {
      var at := if polling[0].events == 0 then i else i - 1;
      SlotsOfShape(polling[1..], at);
      assert SlotsOf(polling)[i] == rest[at];
      var d :| 0 <= d < |polling[1..]| && polling[1..][d] == PollingEntry(rest[at].handler.value, rest[at].wants);
      assert polling[d + 1] == polling[1..][d];
    }
  }

  lemma {:induction false} SlotsOfDistinct(polling: seq<PollingEntry>)
    requires EachOnce(polling)
    ensures forall i, j :: 0 <= i < j < |SlotsOf(polling)| ==>
      SlotsOf(polling)[i].handler != SlotsOf(polling)[j].handler
  {
    if polling != [] {
      var rest := SlotsOf(polling[1..]);
      SlotsOfDistinct(polling[1..]);
      forall j | 0 <= j < |rest| ensures rest[j].handler != Some(polling[0].handler) {
        SlotsOfShape(polling[1..], j);
      }
    }
  }

  lemma {:induction false} SlotOfEntry(polling: seq<PollingEntry>, d: nat) returns (i: nat)
    requires d < |polling| && polling[d].events != 0
    ensures i < |SlotsOf(polling)| && SlotsOf(polling)[i] == Slot(Some(polling[d].handler), polling[d].events, 0)
  {
    if d == 0 {
      i := 0;
    } else {
      i := SlotOfEntry(polling[1..], d - 1);
      if polling[0].events != 0 {
        i := i + 1;
      }
    }
  }

  /** The slots stand for exactly the handlers that want events, each with those it wants. */
  ghost predicate PollsFor(polling: seq<PollingEntry>, slots: seq<Slot>) {
    && (forall i :: 0 <= i < |slots| ==>
          && slots[i].handler.Some? && slots[i].wants != 0
          && PollingEntry(slots[i].handler.value, slots[i].wants) in polling)
    && (forall d :: 0 <= d < |polling| && polling[d].events != 0 ==>
          exists i :: 0 <= i < |slots| && slots[i].handler == Some(polling[d].handler) && slots[i].wants == polling[d].events)
    && (forall i, j :: 0 <= i < j < |slots| ==> slots[i].handler != slots[j].handler)
  }

  lemma {:induction false} UpToDatePollsFor(polling: seq<PollingEntry>, slots: seq<Slot>)
    requires UpToDate(polling, slots)
    requires EachOnce(polling)
    ensures PollsFor(polling, slots)
  {
    SlotsOfDistinct(polling);
    forall i | 0 <= i < |slots|
      ensures slots[i].handler.Some? && slots[i].wants != 0
      ensures PollingEntry(slots[i].handler.value, slots[i].wants) in polling
    {
      SlotsOfShape(polling, i);
      assert slots[i].(revents := 0) == SlotsOf(polling)[i];
    }
    forall d | 0 <= d < |polling| && polling[d].events != 0
      ensures exists i :: 0 <= i < |slots| && slots[i].handler == Some(polling[d].handler) && slots[i].wants == polling[d].events
    {
      var i := SlotOfEntry(polling, d);
      assert slots[i].(revents := 0) == SlotsOf(polling)[i];
    }
    forall i, j | 0 <= i < j < |slots| ensures slots[i].handler != slots[j].handler {
      assert slots[i].(revents := 0) == SlotsOf(polling)[i] && slots[j].(revents := 0) == SlotsOf(polling)[j];
    }
  }

  lemma {:induction false} SlotsOfUpToDate(polling: seq<PollingEntry>)
    ensures UpToDate(polling, SlotsOf(polling))
  {
    forall i | 0 <= i < |SlotsOf(polling)| ensures SlotsOf(polling)[i].revents == 0 {
      SlotsOfShape(polling, i);
    }
  }

  /** What poll is given in a round, whether or not the arrays had to be filled for it. */
  lemma {:induction false} PrepareKeeps(m: Mux)
    requires m.Valid()
    ensures m.Prepare().Valid() && !m.Prepare().dirty
    ensures PollsFor(m.polling, m.Prepare().slots)
  {
    SlotsOfUpToDate(m.polling);
    UpToDatePollsFor(m.polling, m.Prepare().slots);
    if m.dirty {
      SlotsOfDistinct(m.polling);
      forall i | 0 <= i < |SlotsOf(m.polling)|
        ensures SlotsOf(m.polling)[i].handler.Some? && Registered(m.polling, SlotsOf(m.polling)[i].handler.value)
      {
        SlotsOfShape(m.polling, i);
      }
      hide SlotsOf;
    }
  }

  lemma {:induction false} CalledSlot(first: Mux, m: Mux, i: nat)
    requires m.Valid() && Shrinks(first.slots, m.slots) && i < |m.slots| && m.slots[i].revents != 0
    ensures m.slots[i].handler.Some? && first.slots[i].handler == m.slots[i].handler
    ensures Registered(m.polling, m.slots[i].handler.value)
  {
  }

  predicate CallsOf(first: seq<Slot>, i: nat, slots: seq<Slot>, calls: seq<Call>) {
    && |slots| == |first|
    && (forall k :: 0 <= k < |calls| ==>
          && i <= calls[k].slot < |slots|
          && first[calls[k].slot].handler == Some(calls[k].handler)
          && calls[k].registered && calls[k].events != 0
          && Within(calls[k].events, slots[calls[k].slot].revents))
    && (forall k, l :: 0 <= k < l < |calls| ==> calls[k].slot < calls[l].slot)
  }

  lemma {:induction false} OneMoreCall(first: seq<Slot>, i: nat, slots: seq<Slot>, after: seq<Slot>, call: Call, calls: seq<Call>)
    requires CallsOf(first, i + 1, after, calls) && Shrinks(slots, after) && i < |slots|
    requires call.slot == i && first[i].handler == Some(call.handler) && call.registered
    requires call.events == slots[i].revents != 0
    ensures CallsOf(first, i, slots, [call] + calls)
  {
    WithinSelf(call.events, 0);
    forall k | 0 <= k < |calls| ensures Within(calls[k].events, slots[calls[k].slot].revents) {
      WithinOn(calls[k].events, after[calls[k].slot].revents, slots[calls[k].slot].revents);
    }
  }

  /** A call, and those that follow from what its handler left. */
  lemma {:induction false} CallThenRest(first: Mux, m: Mux, i: nat, after: Mux, calls: seq<Call>)
    requires m.Valid() && Shrinks(first.slots, m.slots) && i < |m.slots| && m.slots[i].revents != 0
    requires Shrinks(m.slots, after.slots) && CallsOf(first.slots, i + 1, after.slots, calls)
    ensures m.slots[i].handler.Some?
    ensures var h := m.slots[i].handler.value;
      CallsOf(first.slots, i, m.slots, [Call(i, h, m.slots[i].revents, Registered(m.polling, h))] + calls)
  {
    CalledSlot(first, m, i);
    var h := m.slots[i].handler.value;
    hide *;
    OneMoreCall(first.slots, i, m.slots, after.slots, Call(i, h, m.slots[i].revents, Registered(m.polling, h)), calls);
  }

  lemma {:induction false} DispatchUnfolds(m: Mux, i: nat, scripts: seq<seq<Op>>)
    requires m.Valid()
    ensures i >= |m.slots| ==> Dispatch(m, i, scripts) == (m, [])
    ensures i < |m.slots| && m.slots[i].revents == 0 ==> Dispatch(m, i, scripts) == Dispatch(m, i + 1, scripts)
    ensures i < |m.slots| && m.slots[i].revents != 0 ==>
      && m.slots[i].handler.Some?
      && var h, after := m.slots[i].handler.value, m.ApplyAll(ScriptOf(scripts, i));
      var call := Call(i, h, m.slots[i].revents, Registered(m.polling, h));
      && after.Valid() && Shrinks(m.slots, after.slots) && |after.slots| == |m.slots|
      && Dispatch(m, i, scripts) ==
           if after.running then (Dispatch(after, i + 1, scripts).0, [call] + Dispatch(after, i + 1, scripts).1)
           else (after, [call])
  {
    ApplyAllKeeps(m, ScriptOf(scripts, i));
    hide Find, Within, Mux.ApplyAll;
  }

  lemma {:induction false} NoCalls(first: seq<Slot>, i: nat, slots: seq<Slot>)
    requires Shrinks(first, slots)
    ensures CallsOf(first, i, slots, [])
  {
  }

  lemma {:induction false} LaterCalls(first: seq<Slot>, i: nat, slots: seq<Slot>, calls: seq<Call>)
    requires CallsOf(first, i + 1, slots, calls)
    ensures CallsOf(first, i, slots, calls)
  {
  }

  /** The loop from slot i on calls handlers of slots that had events, one after the
      other, each while it is registered, with events that are still in its slot. */
  lemma {:induction false} DispatchCalls(first: Mux, m: Mux, i: nat, scripts: seq<seq<Op>>)
    requires m.Valid() && Shrinks(first.slots, m.slots)
    ensures var (last, calls) := Dispatch(m, i, scripts);
      last.Valid() && Shrinks(m.slots, last.slots) && CallsOf(first.slots, i, m.slots, calls)
    decreases |m.slots| - i
  {
    hide *;
    ShrinksSelf(m.slots);
    NoCalls(first.slots, i, m.slots);
    DispatchUnfolds(m, i, scripts);
    if i < |m.slots| {
      if m.slots[i].revents == 0 {
        DispatchCalls(first, m, i + 1, scripts);
        LaterCalls(first.slots, i, m.slots, Dispatch(m, i, scripts).1);
      } else {
        var after := m.ApplyAll(ScriptOf(scripts, i));
        ShrinksOn(first.slots, m.slots, after.slots);
        if after.running {
          DispatchCalls(first, after, i + 1, scripts);
          var (last, calls) := Dispatch(after, i + 1, scripts);
          ShrinksOn(m.slots, after.slots, last.slots);
          CallThenRest(first, m, i, after, calls);
        } else {
          NoCalls(first.slots, i + 1, after.slots);
          CallThenRest(first, m, i, after, []);
          assert Dispatch(m, i, scripts).1 + [] == Dispatch(m, i, scripts).1;
        }
      }
    }
  }

  /** What the slots had when the calls began bounds every call of the rest of a round. */
  lemma {:induction false} CallsInRound(polled: Mux, m: Mux, scripts: seq<seq<Op>>)
    requires polled.Valid() && m.Valid() && Shrinks(polled.slots, m.slots)
    ensures var (last, calls) := Dispatch(m, 0, scripts);
      && (forall k :: 0 <= k < |calls| ==>
            && calls[k].registered && calls[k].events != 0 && calls[k].slot < |polled.slots|
            && polled.slots[calls[k].slot].handler == Some(calls[k].handler)
            && Within(calls[k].events, m.slots[calls[k].slot].revents)
            && Within(calls[k].events, polled.slots[calls[k].slot].revents))
      && (forall k, l :: 0 <= k < l < |calls| ==> calls[k].handler != calls[l].handler)
  {
    DispatchCalls(polled, m, 0, scripts);
    var calls := Dispatch(m, 0, scripts).1;
    hide Within, Dispatch;
    forall k | 0 <= k < |calls| ensures Within(calls[k].events, polled.slots[calls[k].slot].revents) {
      WithinOn(calls[k].events, m.slots[calls[k].slot].revents, polled.slots[calls[k].slot].revents);
    }
  }

  /** The handler wants some of the events, so that taking them away does something. */
  predicate Wants(polling: seq<PollingEntry>, h: HandlerId, e: Events) {
    var i := Find(polling, h);
    i < |polling| && Shares(polling[i].events, e)
  }

  /** One of the operations takes the events away from the handler. */
  predicate TakenIn(m: Mux, ops: seq<Op>, h: HandlerId, e: Events)
    decreases ops
  {
    ops != [] && ((ops[0] == DelEvents(h, e) && Wants(m.polling, h, e)) || TakenIn(m.Apply(ops[0]), ops[1..], h, e))
  }

  /** One of the handlers called from slot i on, before the k-th call, takes the events away. */
  predicate TakenBefore(m: Mux, i: nat, scripts: seq<seq<Op>>, k: nat, h: HandlerId, e: Events)
    requires m.Valid()
    decreases |m.slots| - i
  {
    if i >= |m.slots| then false
    else if m.slots[i].revents == 0 then TakenBefore(m, i + 1, scripts, k, h, e)
    else if k == 0 then false
    else
      ApplyAllKeeps(m, ScriptOf(scripts, i));
      var after := m.ApplyAll(ScriptOf(scripts, i));
      TakenIn(m, ScriptOf(scripts, i), h, e) || (after.running && TakenBefore(after, i + 1, scripts, k - 1, h, e))
  }

  /** No slot of the handler has any of the events. */
  predicate NoneLeft(slots: seq<Slot>, h: HandlerId, e: Events) {
    forall i :: 0 <= i < |slots| && slots[i].handler == Some(h) ==> !Shares(slots[i].revents, e)
  }

  lemma {:induction false} NotSharedWithin(a: Events, b: Events, e: Events)
    requires Within(a, b) && !Shares(b, e)
    ensures !Shares(a, e)
  {
  }

  lemma {:induction false} NoneLeftStays(before: seq<Slot>, after: seq<Slot>, h: HandlerId, e: Events)
    requires Shrinks(before, after) && NoneLeft(before, h, e)
    ensures NoneLeft(after, h, e)
  {
    hide Within, Shares;
    forall i | 0 <= i < |after| && after[i].handler == Some(h) ensures !Shares(after[i].revents, e) {
      NotSharedWithin(after[i].revents, before[i].revents, e);
    }
  }

  lemma {:induction false} TakenLeavesNone(m: Mux, ops: seq<Op>, h: HandlerId, e: Events)
    requires m.Valid() && TakenIn(m, ops, h, e)
    ensures m.ApplyAll(ops).Valid() && NoneLeft(m.ApplyAll(ops).slots, h, e)
    decreases ops
  {
    var after := m.Apply(ops[0]);
    ApplyKeeps(m, ops[0]);
    ApplyAllKeeps(after, ops[1..]);
    if ops[0] == DelEvents(h, e) && Wants(m.polling, h, e) {
      DelEventsKeeps(m, h, e);
      OneSlot(after, h, e);
      hide Mux.Valid, Shrinks, Shares, Within, NoneLeft;
      NoneLeftStays(after.slots, m.ApplyAll(ops).slots, h, e);
    } else {
      TakenLeavesNone(after, ops[1..], h, e);
    }
  }

  /** A handler has one slot at most. */
  lemma {:induction false} OneSlot(m: Mux, h: HandlerId, e: Events)
    requires m.Valid()
    requires var k := SlotOf(m.slots, h); k < |m.slots| ==> !Shares(m.slots[k].revents, e)
    ensures NoneLeft(m.slots, h, e)
  {
    hide Shares, Find;
  }

  lemma {:induction false} NoneLeftNoCall(m: Mux, i: nat, scripts: seq<seq<Op>>, h: HandlerId, e: Events)
    requires m.Valid() && NoneLeft(m.slots, h, e)
    ensures var (last, calls) := Dispatch(m, i, scripts);
      forall k :: 0 <= k < |calls| && calls[k].handler == h ==> !Shares(calls[k].events, e)
  {
    ShrinksSelf(m.slots);
    DispatchCalls(m, m, i, scripts);
    var (last, calls) := Dispatch(m, i, scripts);
    hide Within, Shares, Dispatch;
    forall k | 0 <= k < |calls| && calls[k].handler == h ensures !Shares(calls[k].events, e) {
      NotSharedWithin(calls[k].events, m.slots[calls[k].slot].revents, e);
    }
  }

  /** No handler is called with events that one called before it took away. */
  lemma {:induction false} TakenIsNotSeen(m: Mux, i: nat, scripts: seq<seq<Op>>, k: nat, h: HandlerId, e: Events)
    requires m.Valid() && k < |Dispatch(m, i, scripts).1| && Dispatch(m, i, scripts).1[k].handler == h
    requires TakenBefore(m, i, scripts, k, h, e)
    ensures !Shares(Dispatch(m, i, scripts).1[k].events, e)
    decreases |m.slots| - i
  {
    hide Shares, Mux.Valid, TakenIn;
    if m.slots[i].revents == 0 {
      TakenIsNotSeen(m, i + 1, scripts, k, h, e);
    } else {
      var ops := ScriptOf(scripts, i);
      var after := m.ApplyAll(ops);
      ApplyAllKeeps(m, ops);
      if TakenIn(m, ops, h, e) {
        TakenLeavesNone(m, ops, h, e);
        if after.running {
          NoneLeftNoCall(after, i + 1, scripts, h, e);
          assert Dispatch(m, i, scripts).1[k] == Dispatch(after, i + 1, scripts).1[k - 1];
        }
      } else {
        TakenIsNotSeen(after, i + 1, scripts, k - 1, h, e);
      }
    }
  }

  lemma {:induction false} TakenByTimerIsNotSeen(polled: Mux, ops: seq<Op>, scripts: seq<seq<Op>>, k: nat, e: Events)
    requires polled.Valid() && polled.ApplyAll(ops).Valid()
    requires k < |Dispatch(polled.ApplyAll(ops), 0, scripts).1|
    requires TakenIn(polled, ops, Dispatch(polled.ApplyAll(ops), 0, scripts).1[k].handler, e)
    ensures !Shares(Dispatch(polled.ApplyAll(ops), 0, scripts).1[k].events, e)
  {
    hide Dispatch, Shares, Within, TakenIn, Mux.Valid;
    var m := polled.ApplyAll(ops);
    var h := Dispatch(m, 0, scripts).1[k].handler;
    TakenLeavesNone(polled, ops, h, e);
    NoneLeftNoCall(m, 0, scripts, h, e);
  }

  /** In one round, whatever timers and handlers do meanwhile, each handler is called at
      most once, only if poll found events for it, only while it is registered, and never
      with an event that was not found or that a timer or a handler called before took
      away from it. */
  lemma {:induction false} RoundCalls(polled: Mux, timerOps: seq<Op>, scripts: seq<seq<Op>>)
    requires polled.Valid()
    ensures var m := polled.ApplyAll(timerOps);
      && m.Valid()
      && var (last, calls) := Dispatch(m, 0, scripts);
      && (forall k :: 0 <= k < |calls| ==>
            && calls[k].registered && calls[k].events != 0 && calls[k].slot < |polled.slots|
            && polled.slots[calls[k].slot].handler == Some(calls[k].handler)
            && Within(calls[k].events, polled.slots[calls[k].slot].revents))
      && (forall k, l :: 0 <= k < l < |calls| ==> calls[k].handler != calls[l].handler)
      && (forall k, e :: 0 <= k < |calls| && TakenIn(polled, timerOps, calls[k].handler, e) ==>
            !Shares(calls[k].events, e))
      && (forall k, e :: 0 <= k < |calls| && TakenBefore(m, 0, scripts, k, calls[k].handler, e) ==>
            !Shares(calls[k].events, e))
  {
    var m := polled.ApplyAll(timerOps);
    ApplyAllKeeps(polled, timerOps);
    CallsInRound(polled, m, scripts);
    var calls := Dispatch(m, 0, scripts).1;
    hide *;
    forall k, e | 0 <= k < |calls| && TakenIn(polled, timerOps, calls[k].handler, e)
      ensures !Shares(calls[k].events, e)
    {
      TakenByTimerIsNotSeen(polled, timerOps, scripts, k, e);
    }
    forall k, e | 0 <= k < |calls| && TakenBefore(m, 0, scripts, k, calls[k].handler, e)
      ensures !Shares(calls[k].events, e)
    {
      TakenIsNotSeen(m, 0, scripts, k, calls[k].handler, e);
    }
  }

  /** A handler without a slot, such as one that was unregistered in this round, is not
      called in the rest of the round, even if it is registered again. */
  lemma {:induction false} GoneIsNotCalled(m: Mux, i: nat, scripts: seq<seq<Op>>, h: HandlerId)
    requires m.Valid() && SlotOf(m.slots, h) == |m.slots|
    ensures var (last, calls) := Dispatch(m, i, scripts);
      forall k :: 0 <= k < |calls| ==> calls[k].handler != h
  {
    ShrinksSelf(m.slots);
    DispatchCalls(m, m, i, scripts);
    hide Within, Dispatch;
  }

  // ------------------------------------------------------------ the multiplexer

  datatype PollFd = PollFd(events: Events, revents: Events)

  function Zip(handlers: seq<Option<HandlerId>>, fds: seq<PollFd>): (slots: seq<Slot>)
    requires |handlers| == |fds|
  {
    seq(|handlers|, i requires 0 <= i < |handlers| => Slot(handlers[i], fds[i].events, fds[i].revents))
  }

  function PadTo(revents: seq<Events>, n: nat): seq<Events> {
    if n == 0 then [] else PadTo(revents, n - 1) + [if n <= |revents| then revents[n - 1] else 0]
  }

  lemma {:induction false} PadToAt(revents: seq<Events>, n: nat)
    ensures |PadTo(revents, n)| == n
    ensures forall i :: 0 <= i < n ==> PadTo(revents, n)[i] == if i < |revents| then revents[i] else 0
  {
    if n > 0 {
      PadToAt(revents, n - 1);
    }
  }

  lemma {:induction false} SlotsOfSnoc(polling: seq<PollingEntry>, e: PollingEntry)
    ensures SlotsOf(polling + [e]) == SlotsOf(polling) + (if e.events != 0 then [Slot(Some(e.handler), e.events, 0)] else [])
    ensures |SlotsOf(polling)| <= |polling|
  {
    if polling == [] {
      assert [e][1..] == [];
    } else {
      assert (polling + [e])[1..] == polling[1..] + [e];
      SlotsOfSnoc(polling[1..], e);
    }
  }

  lemma {:induction false} PolledKeeps(m: Mux, revents: seq<Events>)
    requires m.Valid() && !m.dirty && |revents| == |m.slots|
    ensures m.Polled(revents).Valid()
  {
    hide Find;
  }

  /** One turn of the loop. */
  lemma {:induction false} DispatchOne(m: Mux, i: nat, scripts: seq<seq<Op>>, done: seq<Call>)
    requires m.Valid() && i < |m.slots|
    ensures m.slots[i].revents == 0 ==> Joined(done, Dispatch(m, i, scripts)) == Joined(done, Dispatch(m, i + 1, scripts))
    ensures m.slots[i].revents != 0 ==>
      && m.slots[i].handler.Some?
      && var h := m.slots[i].handler.value;
      var done' := done + [Call(i, h, m.slots[i].revents, Registered(m.polling, h))];
      var after := m.ApplyAll(ScriptOf(scripts, i));
      && after.Valid()
      && Joined(done, Dispatch(m, i, scripts)) ==
         if after.running then Joined(done', Dispatch(after, i + 1, scripts)) else (after, done')
  {
    if m.slots[i].revents != 0 {
      ApplyAllKeeps(m, ScriptOf(scripts, i));
      var after := m.ApplyAll(ScriptOf(scripts, i));
      if after.running {
        var (last, calls) := Dispatch(after, i + 1, scripts);
        var call := Call(i, m.slots[i].handler.value, m.slots[i].revents, Registered(m.polling, m.slots[i].handler.value));
        assert done + ([call] + calls) == (done + [call]) + calls;
      }
    }
  }

  function Joined(done: seq<Call>, rest: (Mux, seq<Call>)): (Mux, seq<Call>) {
    (rest.0, done + rest.1)
  }

  class Multiplexer {
    var running: bool
    var pollingHdl: seq<PollingEntry>
    var dirty: bool
    var pollArrSize: nat
    var currentNum: nat
    var currentFds: array<PollFd>
    var currentHandlers: array<Option<HandlerId>>

    ghost predicate Shaped()
      reads this
    {
      currentNum <= pollArrSize == currentFds.Length == currentHandlers.Length
    }

    ghost function View(): Mux
      reads this, currentFds, currentHandlers
      requires Shaped()
    {
      Mux(running, pollingHdl, dirty, Zip(currentHandlers[..currentNum], currentFds[..currentNum]))
    }

    ghost predicate Valid()
      reads this, currentFds, currentHandlers
    {
      Shaped() && View().Valid() && pollArrSize % POLL_ARRAY_INC_STEP == 0
    }

    constructor ()
      ensures Valid() && View() == Mux(true, [], true, []) && fresh(currentFds) && fresh(currentHandlers)
    {
      running, pollingHdl, dirty, pollArrSize, currentNum := true, [], true, 0, 0;
      currentFds := new PollFd[0];
      currentHandlers := new Option<HandlerId>[0];
    }

    method FindHandler(h: HandlerId) returns (i: nat)
      ensures i == Find(pollingHdl, h)
    {
      i := 0;
      while i < |pollingHdl| && pollingHdl[i].handler != h
        invariant i <= |pollingHdl| && Find(pollingHdl, h) == i + Find(pollingHdl[i..], h)
      {
        assert pollingHdl[i..][1..] == pollingHdl[i + 1..];
        i := i + 1;
      }
    }

    /** The slot of a handler, if it has one. */
    method FindSlot(h: HandlerId) returns (k: nat)
      requires Shaped()
      ensures k == SlotOf(View().slots, h)
    {
      ghost var slots := View().slots;
      k := 0;
      while k < currentNum && currentHandlers[k] != Some(h)
        invariant k <= currentNum && SlotOf(slots, h) == k + SlotOf(slots[k..], h)
      {
        assert slots[k..][1..] == slots[k + 1..];
        k := k + 1;
      }
    }

    method RegisterFd(h: HandlerId, events: Events) returns (ret: int)
      requires Valid()
      modifies this`pollingHdl, this`dirty
      ensures Valid() && View() == old(View()).Apply(Register(h, events))
      ensures ret == if Registered(old(pollingHdl), h) then -1 else 0
    {
      ApplyKeeps(View(), Register(h, events));
      ret := -1;
      var i := FindHandler(h);
      if i == |pollingHdl| {
        pollingHdl := pollingHdl + [PollingEntry(h, events)];
        dirty := true;
        ret := 0;
      }
    }

    method UnregisterFd(h: HandlerId)
      requires Valid()
      modifies this`pollingHdl, this`dirty, currentFds, currentHandlers
      ensures Valid() && View() == old(View()).Apply(Unregister(h))
    {
      ApplyKeeps(View(), Unregister(h));
      assert View().Apply(Unregister(h)) == View().Unregistered(h);
      hide Mux.Valid, Mux.Apply, SlotEmptied, Shrinks, Find;
      var i := FindHandler(h);
      if i < |pollingHdl| {
        RemoveAt(i);
      }
    }

    method RemoveAt(i: nat)
      requires Shaped() && i < |pollingHdl| && Find(pollingHdl, pollingHdl[i].handler) == i
      modifies this`pollingHdl, this`dirty, currentFds, currentHandlers
      ensures View() == old(View()).Unregistered(old(pollingHdl[i].handler))
    {
      hide SlotEmptied, Find;
      RemoveCurHandler(pollingHdl[i].handler);
      pollingHdl := pollingHdl[..i] + pollingHdl[i + 1..];
      dirty := true;
    }

    method RemoveCurHandler(h: HandlerId)
      requires Shaped()
      modifies currentFds, currentHandlers
      ensures View().slots == SlotEmptied(old(View()).slots, h)
    {
      var k := FindSlot(h);
      if k < currentNum {
        currentHandlers[k] := None;
        currentFds[k] := currentFds[k].(revents := 0);
      }
    }

    method AddEventsTo(h: HandlerId, events: Events) returns (ret: int)
      requires Valid()
      modifies this`pollingHdl, this`dirty
      ensures Valid() && View() == old(View()).Apply(AddEvents(h, events))
      ensures ret == if Registered(old(pollingHdl), h) then 0 else -1
    {
      ApplyKeeps(View(), AddEvents(h, events));
      hide Mux.Valid, Find, SlotOf, Shrinks, Covers, Join, Shares, Without;
      ret := -1;
      var i := FindHandler(h);
      if i < |pollingHdl| {
        if !Covers(pollingHdl[i].events, events) {
          pollingHdl := pollingHdl[i := PollingEntry(h, Join(pollingHdl[i].events, events))];
          dirty := true;
        }
        ret := 0;
      }
    }

    method DelEventsOf(h: HandlerId, events: Events) returns (ret: int)
      requires Valid()
      modifies this`pollingHdl, this`dirty, currentFds
      ensures Valid() && View() == old(View()).Apply(DelEvents(h, events))
      ensures ret == if Registered(old(pollingHdl), h) then 0 else -1
    {
      ApplyKeeps(View(), DelEvents(h, events));
      assert View().Apply(DelEvents(h, events)) == View().EventsTaken(h, events);
      hide Mux.Valid, Mux.Apply, FoundTaken, Shrinks, Shares, Without;
      ret := -1;
      var i := FindHandler(h);
      if i < |pollingHdl| {
        if Shares(pollingHdl[i].events, events) {
          ClearCurEvents(h, events);
          pollingHdl := pollingHdl[i := PollingEntry(h, Without(pollingHdl[i].events, events))];
          dirty := true;
        }
        ret := 0;
      }
    }

    method ClearCurEvents(h: HandlerId, events: Events)
      requires Shaped()
      modifies currentFds
      ensures View().slots == FoundTaken(old(View()).slots, h, events)
    {
      var k := FindSlot(h);
      if k < currentNum {
        currentFds[k] := currentFds[k].(revents := Without(currentFds[k].revents, events));
      }
    }

    method RunOps(ops: seq<Op>)
      requires Valid()
      modifies this`running, this`pollingHdl, this`dirty, currentFds, currentHandlers
      ensures Valid() && View() == old(View()).ApplyAll(ops)
    {
      for i := 0 to |ops|
        invariant Valid() && View().ApplyAll(ops[i..]) == old(View()).ApplyAll(ops)
      {
        assert ops[i..][0] == ops[i] && ops[i..][1..] == ops[i + 1..];
        RunOp(ops[i]);
      }
    }

    method RunOp(op: Op)
      requires Valid()
      modifies this`running, this`pollingHdl, this`dirty, currentFds, currentHandlers
      ensures Valid() && View() == old(View()).Apply(op)
    {
      match op {
        case Register(h, e) => var _ := RegisterFd(h, e);
        case Unregister(h) => UnregisterFd(h);
        case AddEvents(h, e) => var _ := AddEventsTo(h, e);
        case DelEvents(h, e) => var _ := DelEventsOf(h, e);
        case ShallQuit => running := false;
      }
    }

    /** Makes the arrays large enough, in steps of 32. */
    method Enlarge()
      requires Shaped() && pollArrSize % POLL_ARRAY_INC_STEP == 0
      modifies this`pollArrSize, this`currentFds, this`currentHandlers, this`currentNum
      ensures Shaped() && pollArrSize % POLL_ARRAY_INC_STEP == 0
      ensures |pollingHdl| <= pollArrSize && currentNum == 0
      ensures currentFds == old(currentFds) || fresh(currentFds)
      ensures currentHandlers == old(currentHandlers) || fresh(currentHandlers)
      ensures old(pollArrSize) >= |pollingHdl| ==> pollArrSize == old(pollArrSize)
      ensures old(pollArrSize) < |pollingHdl| ==> pollArrSize < |pollingHdl| + POLL_ARRAY_INC_STEP
    {
      currentNum := 0;
      if |pollingHdl| > pollArrSize {
        var stepTimes := (|pollingHdl| + POLL_ARRAY_INC_STEP - 1) / POLL_ARRAY_INC_STEP;
        var newSize := stepTimes * POLL_ARRAY_INC_STEP;
        currentFds := new PollFd[newSize](_ => PollFd(0, 0));
        currentHandlers := new Option<HandlerId>[newSize](_ => None);
        pollArrSize := newSize;
      }
    }

    method FillSlot(j: nat, h: HandlerId, events: Events)
      requires Shaped() && j < pollArrSize
      modifies currentFds, currentHandlers
      ensures Zip(currentHandlers[..j + 1], currentFds[..j + 1]) ==
        old(Zip(currentHandlers[..j], currentFds[..j])) + [Slot(Some(h), events, 0)]
    {
      currentFds[j] := PollFd(events, 0);
      currentHandlers[j] := Some(h);
    }

    method PreparePollingArray()
      requires Shaped() && pollArrSize % POLL_ARRAY_INC_STEP == 0
      modifies this`pollArrSize, this`currentFds, this`currentHandlers, this`currentNum, currentFds, currentHandlers
      ensures Shaped() && pollArrSize % POLL_ARRAY_INC_STEP == 0
      ensures View() == old(View()).(slots := SlotsOf(pollingHdl))
      ensures currentFds == old(currentFds) || fresh(currentFds)
      ensures currentHandlers == old(currentHandlers) || fresh(currentHandlers)
    {
      Enlarge();
      assert SlotsOf([]) == [] && pollingHdl[..0] == [];
      hide SlotsOf;
      ghost var fds, handlers := currentFds, currentHandlers;
      var j := 0;
      for i := 0 to |pollingHdl|
        invariant Shaped() && currentFds == fds && currentHandlers == handlers && |pollingHdl| <= pollArrSize
        invariant pollArrSize % POLL_ARRAY_INC_STEP == 0
        invariant j <= i && j == |SlotsOf(pollingHdl[..i])|
        invariant Zip(currentHandlers[..j], currentFds[..j]) == SlotsOf(pollingHdl[..i])
      {
        assert pollingHdl[..i + 1] == pollingHdl[..i] + [pollingHdl[i]];
        SlotsOfSnoc(pollingHdl[..i], pollingHdl[i]);
        var events := pollingHdl[i].events;
        if events != 0 {
          FillSlot(j, pollingHdl[i].handler, events);
          j := j + 1;
        }
      }
      assert pollingHdl[..|pollingHdl|] == pollingHdl;
      currentNum := j;
    }

    /** One turn of the event loop: revents is what poll found, if it found anything. */
    method Round(found: bool, revents: seq<Events>, timerOps: seq<Op>, scripts: seq<seq<Op>>) returns (calls: seq<Call>)
      requires Valid()
      modifies this, currentFds, currentHandlers
      ensures Valid()
      ensures PollsFor(old(pollingHdl), old(View()).Prepare().slots)
      ensures var prepared := old(View()).Prepare();
        if found then
          |PadTo(revents, |prepared.slots|)| == |prepared.slots| &&
          var m := prepared.Polled(PadTo(revents, |prepared.slots|)).ApplyAll(timerOps);
          m.Valid() && (View(), calls) == Dispatch(m, 0, scripts)
        else View() == prepared.ApplyAll(timerOps) && calls == []
    {
      PrepareKeeps(View());
      if dirty {
        PreparePollingArray();
        dirty := false;
      }
      calls := [];
      if found {
        Poll(revents);
      }
      RunOps(timerOps);
      if found {
        calls := DispatchAll(scripts);
      }
    }

    method Poll(revents: seq<Events>)
      requires Valid() && !dirty
      modifies currentFds
      ensures Valid() && |PadTo(revents, |old(View()).slots|)| == |old(View()).slots|
      ensures View() == old(View()).Polled(PadTo(revents, |old(View()).slots|))
    {
      PadToAt(revents, currentNum);
      ghost var after := View().Polled(PadTo(revents, currentNum));
      PolledKeeps(View(), PadTo(revents, currentNum));
      hide PadTo, Mux.Valid;
      for i := 0 to currentNum
        invariant forall k :: 0 <= k < currentNum ==> currentFds[k].events == old(currentFds[k].events)
        invariant forall k :: 0 <= k < i ==> currentFds[k].revents == if k < |revents| then revents[k] else 0
      {
        currentFds[i] := currentFds[i].(revents := if i < |revents| then revents[i] else 0);
      }
      assert View().slots == after.slots;
    }

    method DispatchAll(scripts: seq<seq<Op>>) returns (calls: seq<Call>)
      requires Valid()
      modifies this`running, this`pollingHdl, this`dirty, currentFds, currentHandlers
      ensures Valid() && (View(), calls) == Dispatch(old(View()), 0, scripts)
    {
      calls := [];
      ghost var all := Dispatch(View(), 0, scripts);
      assert [] + all.1 == all.1;
      var i := 0;
      while i < currentNum
        invariant Valid() && i <= currentNum == |View().slots| && Joined(calls, Dispatch(View(), i, scripts)) == all
      {
        DispatchOne(View(), i, scripts, calls);
        var events := currentFds[i].revents;
        if events != 0 {
          var call := CallSlot(i, ScriptOf(scripts, i));
          calls := calls + [call];
          if !running {
            return;
          }
        }
        i := i + 1;
      }
      assert Dispatch(View(), i, scripts) == (View(), []) && calls + [] == calls;
    }

    /** Calls the handler of a slot, which does what the script says. */
    method CallSlot(i: nat, script: seq<Op>) returns (call: Call)
      requires Valid() && i < currentNum && currentFds[i].revents != 0
      modifies this`running, this`pollingHdl, this`dirty, currentFds, currentHandlers
      ensures Valid() && View() == old(View()).ApplyAll(script)
      ensures i < |old(View()).slots| && old(View()).slots[i].handler.Some?
      ensures var slot := old(View()).slots[i];
        call == Call(i, slot.handler.value, slot.revents, Registered(old(pollingHdl), slot.handler.value))
    {
      assert View().slots[i].handler.Some?;
      var events := currentFds[i].revents;
      var h := currentHandlers[i].value;
      var at := FindHandler(h);
      call := Call(i, h, events, at < |pollingHdl|);
      RunOps(script);
    }
  }
}
