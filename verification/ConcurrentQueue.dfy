/** The queue with one lock for each end, as a state machine over the single
    steps that its threads take while they hold a lock. Nodes live in a heap of
    numbered cells; `chain` lists the cells from head to tail, the last one being
    the dummy end. */
module ConcurrentQueue {
  import opened Basics

  type Thread = nat
  type NodeId = nat

  datatype Node<T> = Node(data: Option<T>, next: Option<NodeId>)

  /** Who holds the lock of the head, and how far it got. */
  datatype HeadSection =
    | HeadFree
    | PopLocked(t: Thread)
    | PopSawTail(t: Thread, end: NodeId)
    | PopTook(t: Thread, node: NodeId)
    | PopAdvanced(t: Thread, node: NodeId)
    | MoveHead(t: Thread)

  datatype PushStage = Start | DataSet | NextSet | TailSet

  /** Who holds the lock of the tail. A popping thread takes it to read the tail. */
  datatype TailSection<T> =
    | TailFree
    | TailRead(t: Thread)
    | Push(t: Thread, item: T, dummy: NodeId, stage: PushStage)
    | MoveTail(t: Thread)

  /** Where a cell is: a new dummy not linked yet, in the queue, taken off by the
      holder of the head lock, owned by a thread, or in a queue moved to. */
  datatype Role = Spare | Queued | Leaving | Owned(t: Thread) | Handed(k: nat)

  datatype Queue<T> = Queue(
    nodes: map<NodeId, Node<T>>,
    nextId: NodeId,
    head: Option<NodeId>,
    tail: NodeId,
    headSection: HeadSection,
    tailSection: TailSection<T>,
    // popped nodes that a thread still has to take the item from
    owned: map<Thread, NodeId>,
    // history: the cells of the queue, and of each queue that it was moved to
    chain: seq<NodeId>,
    handedOver: seq<seq<NodeId>>,
    // history: the one place where each cell is
    role: map<NodeId, Role>,
    pushed: seq<T>,
    removed: seq<T>)

  datatype Step<T> =
    | LockPush(t: Thread, item: T)
    | StoreData
    | StoreNext
    | StoreTail
    | UnlockPush
    | LockPop(t: Thread)
    | LockTailForRead
    | ReadTail
    | GiveUp
    | TakeHead
    | AdvanceHead
    | UnlockPop
    | TakeItem(t: Thread)
    | LockHeadForMove(t: Thread)
    | LockTailForMove
    | MoveAll
    | UnlockMove

  ghost predicate Enabled<T>(q: Queue<T>, s: Step<T>) {
    match s
    case LockPush(_, _) => q.tailSection.TailFree?
    case StoreData => q.tailSection.Push? && q.tailSection.stage.Start?
    case StoreNext => q.tailSection.Push? && q.tailSection.stage.DataSet?
    case StoreTail => q.tailSection.Push? && q.tailSection.stage.NextSet?
    case UnlockPush => q.tailSection.Push? && q.tailSection.stage.TailSet?
    case LockPop(t) => q.headSection.HeadFree? && t !in q.owned
    case LockTailForRead => q.headSection.PopLocked? && q.tailSection.TailFree?
    case ReadTail => q.headSection.PopLocked? && q.tailSection == TailRead(q.headSection.t)
    case GiveUp => q.headSection.PopSawTail? && q.head == Some(q.headSection.end)
    case TakeHead => q.headSection.PopSawTail? && q.head != Some(q.headSection.end)
    case AdvanceHead => q.headSection.PopTook?
    case UnlockPop => q.headSection.PopAdvanced?
    case TakeItem(t) => t in q.owned
    case LockHeadForMove(_) => q.headSection.HeadFree?
    case LockTailForMove => q.headSection.MoveHead? && q.tailSection.TailFree?
    case MoveAll => q.headSection.MoveHead? && q.tailSection == MoveTail(q.headSection.t)
    case UnlockMove => q.headSection.MoveHead? && q.tailSection == MoveTail(q.headSection.t)
  }

  /** The node pointers that a step follows are there. */
  ghost predicate Defined<T>(q: Queue<T>, s: Step<T>)
    requires Enabled(q, s)
  {
    match s
    case StoreData => q.tail in q.nodes
    case StoreNext => q.tail in q.nodes
    case StoreTail => q.tail in q.nodes && q.nodes[q.tail].next.Some?
    case TakeHead => q.head.Some?
    case AdvanceHead => q.headSection.node in q.nodes && q.nodes[q.headSection.node].data.Some? && q.chain != []
    case TakeItem(t) => q.owned[t] in q.nodes && q.nodes[q.owned[t]].data.Some?
    case MoveAll => q.head.Some? && q.chain != [] && AllStored(q.nodes, q.chain)
    case _ => true
  }

  ghost predicate AllStored<T>(nodes: map<NodeId, Node<T>>, chain: seq<NodeId>)
  {
    forall i :: 0 <= i < |chain| - 1 ==> chain[i] in nodes && nodes[chain[i]].data.Some?
  }

  function Items<T>(nodes: map<NodeId, Node<T>>, chain: seq<NodeId>): (items: seq<T>)
    requires AllStored(nodes, chain)
    ensures |items| == if chain == [] then 0 else |chain| - 1
  {
    seq(if chain == [] then 0 else |chain| - 1,
        i requires 0 <= i < |chain| - 1 => nodes[chain[i]].data.value)
  }

  function Apply<T>(q: Queue<T>, s: Step<T>): Queue<T>
    requires Enabled(q, s) && Defined(q, s)
  {
    match s
    case LockPush(t, item) =>
      q.(nodes := q.nodes[q.nextId := Node(None, None)], nextId := q.nextId + 1,
         role := q.role[q.nextId := Spare],
         tailSection := Push(t, item, q.nextId, Start))
    case StoreData =>
      q.(nodes := q.nodes[q.tail := q.nodes[q.tail].(data := Some(q.tailSection.item))],
         tailSection := q.tailSection.(stage := DataSet))
    case StoreNext =>
      q.(nodes := q.nodes[q.tail := q.nodes[q.tail].(next := Some(q.tailSection.dummy))],
         tailSection := q.tailSection.(stage := NextSet))
    case StoreTail =>
      var next := q.nodes[q.tail].next.value;
      q.(tail := next,
         tailSection := q.tailSection.(stage := TailSet),
         chain := q.chain + [next],
         role := q.role[next := Queued],
         pushed := q.pushed + [q.tailSection.item])
    case UnlockPush => q.(tailSection := TailFree)
    case LockPop(t) => q.(headSection := PopLocked(t))
    case LockTailForRead => q.(tailSection := TailRead(q.headSection.t))
    case ReadTail =>
      q.(headSection := PopSawTail(q.headSection.t, q.tail), tailSection := TailFree)
    case GiveUp => q.(headSection := HeadFree)
    case TakeHead => q.(headSection := PopTook(q.headSection.t, q.head.value), head := None)
    case AdvanceHead =>
      var node := q.headSection.node;
      q.(headSection := PopAdvanced(q.headSection.t, node),
         head := q.nodes[node].next,
         chain := q.chain[1..],
         role := q.role[node := Leaving],
         removed := q.removed + [q.nodes[node].data.value])
    case UnlockPop =>
      q.(headSection := HeadFree,
         owned := q.owned[q.headSection.t := q.headSection.node],
         role := q.role[q.headSection.node := Owned(q.headSection.t)])
    case TakeItem(t) =>
      q.(nodes := q.nodes - {q.owned[t]}, role := q.role - {q.owned[t]}, owned := q.owned - {t})
    case LockHeadForMove(t) => q.(headSection := MoveHead(t))
    case LockTailForMove => q.(tailSection := MoveTail(q.headSection.t))
    case MoveAll =>
      q.(nodes := q.nodes[q.nextId := Node(None, None)], nextId := q.nextId + 1,
         head := Some(q.nextId), tail := q.nextId,
         chain := [q.nextId],
         handedOver := q.handedOver + [q.chain],
         role := (map id | id in q.role :: if id in q.chain then Handed(|q.handedOver|) else q.role[id])
                 [q.nextId := Queued],
         removed := q.removed + Items(q.nodes, q.chain))
    case UnlockMove => q.(headSection := HeadFree, tailSection := TailFree)
  }

  function New<T>(): Queue<T> {
    Queue(map[0 := Node(None, None)], 1, Some(0), 0, HeadFree, TailFree, map[], [0], [],
          map[0 := Queued], [], [])
  }

  // -------------------------------------------------------------- invariant

  ghost predicate Distinct(s: seq<NodeId>) {
    forall i, j :: 0 <= i < j < |s| ==> s[i] != s[j]
  }

  /** Cells of one role, linked one to the next, with items in all but the last. */
  ghost predicate Linked<T>(nodes: map<NodeId, Node<T>>, roles: map<NodeId, Role>, chain: seq<NodeId>, r: Role) {
    && chain != [] && Distinct(chain) && AllStored(nodes, chain)
    && (forall i :: 0 <= i < |chain| ==> chain[i] in nodes && chain[i] in roles && roles[chain[i]] == r)
    && (forall i :: 0 <= i < |chain| - 1 ==> nodes[chain[i]].next == Some(chain[i + 1]))
  }

  ghost predicate HasItem<T>(nodes: map<NodeId, Node<T>>, roles: map<NodeId, Role>, node: NodeId, r: Role) {
    && node in nodes && nodes[node].data.Some?
    && node in roles && roles[node] == r
  }

  ghost predicate HeadInv<T>(q: Queue<T>)
    requires q.chain != []
  {
    match q.headSection
    case PopTook(_, node) => q.head == None && |q.chain| >= 2 && node == q.chain[0]
    case PopAdvanced(_, node) => q.head == Some(q.chain[0]) && HasItem(q.nodes, q.role, node, Leaving)
    case PopSawTail(_, end) => q.head == Some(q.chain[0]) && end in q.chain
    case _ => q.head == Some(q.chain[0])
  }

  ghost predicate TailInv<T>(q: Queue<T>)
    requires q.tail in q.nodes
  {
    match q.tailSection
    case TailFree => q.nodes[q.tail] == Node(None, None)
    case TailRead(t) => q.nodes[q.tail] == Node(None, None) && q.headSection == PopLocked(t)
    case MoveTail(t) => q.nodes[q.tail] == Node(None, None) && q.headSection == MoveHead(t)
    case Push(_, item, dummy, stage) =>
      if stage.TailSet? then q.nodes[q.tail] == Node(None, None)
      else
        && dummy in q.nodes && q.nodes[dummy] == Node(None, None)
        && dummy in q.role && q.role[dummy] == Spare
        && q.nodes[q.tail] == Node(if stage.Start? then None else Some(item),
                                   if stage.NextSet? then Some(dummy) else None)
  }

  ghost predicate Popping(h: HeadSection) {
    h.PopLocked? || h.PopSawTail? || h.PopTook? || h.PopAdvanced?
  }

  /** The part of the invariant that no lock appears in. */
  ghost predicate CellsInv<T>(q: Queue<T>) {
    && Linked(q.nodes, q.role, q.chain, Queued)
    && q.role.Keys == q.nodes.Keys
    && (forall id :: id in q.nodes ==> id < q.nextId)
    && (forall t :: t in q.owned ==> HasItem(q.nodes, q.role, q.owned[t], Owned(t)))
    && (forall k :: 0 <= k < |q.handedOver| ==> Linked(q.nodes, q.role, q.handedOver[k], Handed(k)))
    && q.pushed == q.removed + Items(q.nodes, q.chain)
  }

  ghost predicate Inv<T>(q: Queue<T>) {
    && CellsInv(q)
    && q.tail == q.chain[|q.chain| - 1]
    && HeadInv(q) && TailInv(q)
    && (Popping(q.headSection) ==> q.headSection.t !in q.owned)
  }

  /** The queue that the threads see. */
  function Content<T>(q: Queue<T>): seq<T>
    requires Inv(q)
  {
    Items(q.nodes, q.chain)
  }

  lemma {:induction false} StepsAreDefined<T>(q: Queue<T>, s: Step<T>)
    requires Inv(q) && Enabled(q, s)
    ensures Defined(q, s)
  {
  }

  /** Steps elsewhere do not disturb a chain. */
  lemma {:induction false} ChainKept<T>(q: Queue<T>, r: Queue<T>, chain: seq<NodeId>, role: Role)
    requires Linked(q.nodes, q.role, chain, role)
    requires forall i :: 0 <= i < |chain| ==>
      chain[i] in r.nodes && chain[i] in r.role && r.role[chain[i]] == role
    requires forall i :: 0 <= i < |chain| - 1 ==> r.nodes[chain[i]] == q.nodes[chain[i]]
    ensures Linked(r.nodes, r.role, chain, role)
    ensures Items(r.nodes, chain) == Items(q.nodes, chain)
  {
  }

  /** A step that keeps the cells which are taken off, owned or handed over, and leaves the
      queue well linked, keeps the cells in order. */
  lemma {:induction false} CellsKept<T>(q: Queue<T>, r: Queue<T>)
    requires CellsInv(q) && Linked(r.nodes, r.role, r.chain, Queued)
    requires r.role.Keys == r.nodes.Keys && forall id :: id in r.nodes ==> id < r.nextId
    requires forall id :: id in q.nodes && (q.role[id].Handed? || q.role[id].Owned?) ==>
      id in r.nodes && r.nodes[id] == q.nodes[id] && id in r.role && r.role[id] == q.role[id]
    requires r.owned == q.owned && r.handedOver == q.handedOver
    requires r.pushed == r.removed + Items(r.nodes, r.chain)
    ensures CellsInv(r)
  {
    HandedKept(q, r);
    OwnedKept(q, r);
    hide Linked, Items, HasItem;
  }

  lemma {:induction false} OwnedKept<T>(q: Queue<T>, r: Queue<T>)
    requires CellsInv(q)
    requires forall id :: id in q.nodes && q.role[id].Owned? ==>
      id in r.nodes && r.nodes[id] == q.nodes[id] && id in r.role && r.role[id] == q.role[id]
    ensures forall t :: t in q.owned ==> HasItem(r.nodes, r.role, q.owned[t], Owned(t))
  {
    hide Linked, Items;
    forall t | t in q.owned ensures HasItem(r.nodes, r.role, q.owned[t], Owned(t)) {
      assert HasItem(q.nodes, q.role, q.owned[t], Owned(t));
    }
  }

  lemma {:induction false} HandedKept<T>(q: Queue<T>, r: Queue<T>)
    requires CellsInv(q)
    requires forall id :: id in q.nodes && q.role[id].Handed? ==>
      id in r.nodes && r.nodes[id] == q.nodes[id] && id in r.role && r.role[id] == q.role[id]
    ensures forall k :: 0 <= k < |q.handedOver| ==> Linked(r.nodes, r.role, q.handedOver[k], Handed(k))
  {
    forall k | 0 <= k < |q.handedOver| ensures Linked(r.nodes, r.role, q.handedOver[k], Handed(k)) {
      ChainKept(q, r, q.handedOver[k], Handed(k));
    }
  }

  lemma {:induction false} LockPushStep<T>(q: Queue<T>, s: Step<T>)
    requires Inv(q) && Enabled(q, s) && s.LockPush?
    ensures Inv(Apply(q, s)) && Content(Apply(q, s)) == Content(q)
  {
    ChainKept(q, Apply(q, s), q.chain, Queued);
    CellsKept(q, Apply(q, s));
    assert q.nextId !in q.nodes;
    hide CellsInv, Items;
  }

  lemma {:induction false} StoreCells<T>(q: Queue<T>, s: Step<T>)
    requires Inv(q) && Enabled(q, s) && (s.StoreData? || s.StoreNext?)
    ensures Defined(q, s) && CellsInv(Apply(q, s))
    ensures q.role[q.tail] == Queued
    ensures Items(Apply(q, s).nodes, q.chain) == Items(q.nodes, q.chain)
  {
    ChainKept(q, Apply(q, s), q.chain, Queued);
    CellsKept(q, Apply(q, s));
  }

  lemma {:induction false} StoreSteps<T>(q: Queue<T>, s: Step<T>)
    requires Inv(q) && Enabled(q, s) && (s.StoreData? || s.StoreNext?)
    ensures Defined(q, s) && Inv(Apply(q, s)) && Content(Apply(q, s)) == Content(q)
  {
    StoreCells(q, s);
    assert q.chain != [];
    hide CellsInv, Items;
  }

  lemma {:induction false} TailStored<T>(q: Queue<T>)
    requires Inv(q) && Enabled(q, StoreTail)
    ensures Defined(q, StoreTail)
    ensures var r := Apply(q, StoreTail);
      && CellsInv(r)
      && Items(r.nodes, r.chain) == Items(q.nodes, q.chain) + [q.tailSection.item]
  {
    var r := Apply(q, StoreTail);
    var last := |q.chain| - 1;
    assert r.chain[..last] == q.chain[..last];
    assert Linked(r.nodes, r.role, r.chain, Queued);
    CellsKept(q, r);
  }

  lemma {:induction false} StoreTailStep<T>(q: Queue<T>)
    requires Inv(q) && Enabled(q, StoreTail)
    ensures Defined(q, StoreTail)
    ensures var r := Apply(q, StoreTail); Inv(r) && Content(r) == Content(q) + [q.tailSection.item]
  {
    TailStored(q);
    assert q.chain != [];
    hide CellsInv, Items;
  }

  lemma {:induction false} HeadAdvanced<T>(q: Queue<T>)
    requires Inv(q) && Enabled(q, AdvanceHead)
    ensures Defined(q, AdvanceHead)
    ensures var r := Apply(q, AdvanceHead);
      && r.head == Some(r.chain[0]) && r.chain[|r.chain| - 1] == q.tail
      && HasItem(r.nodes, r.role, q.headSection.node, Leaving)
      && Linked(r.nodes, r.role, r.chain, Queued)
      && Items(q.nodes, q.chain) == [q.nodes[q.headSection.node].data.value] + Items(r.nodes, r.chain)
  {
  }

  lemma {:induction false} AdvanceHeadStep<T>(q: Queue<T>)
    requires Inv(q) && Enabled(q, AdvanceHead)
    ensures Defined(q, AdvanceHead)
    ensures var r := Apply(q, AdvanceHead);
      Inv(r) && Content(q) == [q.nodes[q.headSection.node].data.value] + Content(r)
  {
    HeadAdvanced(q);
    assert q.role[q.headSection.node] == Queued;
    CellsKept(q, Apply(q, AdvanceHead));
    hide CellsInv, Items;
  }

  lemma {:induction false} ItemUnlocked<T>(q: Queue<T>)
    requires Inv(q) && Enabled(q, UnlockPop)
    ensures var r := Apply(q, UnlockPop); CellsInv(r) && Items(r.nodes, r.chain) == Items(q.nodes, q.chain)
  {
    var r := Apply(q, UnlockPop);
    ChainKept(q, r, q.chain, Queued);
    HandedKept(q, r);
    hide Linked, Items;
    OwnedKept(q, r);
    assert HasItem(r.nodes, r.role, q.headSection.node, Owned(q.headSection.t));
    hide HasItem;
  }

  lemma {:induction false} UnlockPopStep<T>(q: Queue<T>)
    requires Inv(q) && Enabled(q, UnlockPop)
    ensures Inv(Apply(q, UnlockPop)) && Content(Apply(q, UnlockPop)) == Content(q)
  {
    ItemUnlocked(q);
    assert q.chain != [];
    hide CellsInv, Items;
  }

  lemma {:induction false} ItemTaken<T>(q: Queue<T>, t: Thread)
    requires CellsInv(q) && Enabled(q, TakeItem(t))
    ensures Defined(q, TakeItem(t)) && HasItem(q.nodes, q.role, q.owned[t], Owned(t))
    ensures var r := Apply(q, TakeItem(t)); CellsInv(r) && Items(r.nodes, r.chain) == Items(q.nodes, q.chain)
  {
    assert HasItem(q.nodes, q.role, q.owned[t], Owned(t));
    var r := Apply(q, TakeItem(t));
    ChainKept(q, r, q.chain, Queued);
    HandedKept(q, r);
    hide Linked, Items;
    forall u | u in r.owned ensures HasItem(r.nodes, r.role, r.owned[u], Owned(u)) {
      assert HasItem(q.nodes, q.role, q.owned[u], Owned(u));
    }
  }

  lemma {:induction false} TakeItemStep<T>(q: Queue<T>, t: Thread)
    requires Inv(q) && Enabled(q, TakeItem(t))
    ensures Defined(q, TakeItem(t))
    ensures Inv(Apply(q, TakeItem(t))) && Content(Apply(q, TakeItem(t))) == Content(q)
  {
    ItemTaken(q, t);
    assert q.chain != [] && q.role[q.tail] == Queued;
    hide CellsInv, Items;
  }

  lemma {:induction false} AllMoved<T>(q: Queue<T>)
    requires CellsInv(q) && Enabled(q, MoveAll) && Defined(q, MoveAll)
    ensures var r := Apply(q, MoveAll);
      && Linked(r.nodes, r.role, q.chain, Handed(|q.handedOver|))
      && Items(r.nodes, q.chain) == Items(q.nodes, q.chain)
      && Items(r.nodes, r.chain) == []
  {
    var r := Apply(q, MoveAll);
    forall i | 0 <= i < |q.chain| ensures r.role[q.chain[i]] == Handed(|q.handedOver|) {
      assert q.chain[i] in q.chain;
    }
  }

  lemma {:induction false} OthersMoved<T>(q: Queue<T>)
    requires CellsInv(q) && Enabled(q, MoveAll) && Defined(q, MoveAll)
    ensures var r := Apply(q, MoveAll);
      forall id :: id in q.nodes && q.role[id] != Queued ==>
        id in r.nodes && r.nodes[id] == q.nodes[id] && id in r.role && r.role[id] == q.role[id]
  {
  }

  lemma {:induction false} HandedMoved<T>(q: Queue<T>)
    requires CellsInv(q) && Enabled(q, MoveAll) && Defined(q, MoveAll)
    ensures var r := Apply(q, MoveAll);
      forall k :: 0 <= k < |r.handedOver| ==> Linked(r.nodes, r.role, r.handedOver[k], Handed(k))
  {
    AllMoved(q);
    OthersMoved(q);
    hide Linked, Items, HasItem;
    HandedKept(q, Apply(q, MoveAll));
  }

  lemma {:induction false} MovedCells<T>(q: Queue<T>)
    requires CellsInv(q) && Enabled(q, MoveAll) && Defined(q, MoveAll)
    ensures CellsInv(Apply(q, MoveAll))
  {
    var r := Apply(q, MoveAll);
    HandedMoved(q);
    AllMoved(q);
    OthersMoved(q);
    assert Linked(r.nodes, r.role, r.chain, Queued);
    hide Linked, Items;
    OwnedKept(q, r);
    hide HasItem;
  }

  lemma {:induction false} MoveAllStep<T>(q: Queue<T>)
    requires Inv(q) && Enabled(q, MoveAll)
    ensures Defined(q, MoveAll)
    ensures var r := Apply(q, MoveAll);
      && Inv(r) && Content(r) == []
      && r.handedOver == q.handedOver + [q.chain]
      && Linked(r.nodes, r.role, q.chain, Handed(|q.handedOver|))
      && Items(r.nodes, q.chain) == Content(q)
  {
    StepsAreDefined(q, MoveAll);
    hide CellsInv, Linked, Items;
    AllMoved(q);
    MovedCells(q);
  }

  lemma {:induction false} OtherSteps<T>(q: Queue<T>, s: Step<T>)
    requires Inv(q) && Enabled(q, s) && Apply.requires(q, s)
    requires !s.LockPush? && !s.StoreData? && !s.StoreNext? && !s.StoreTail? && !s.AdvanceHead?
    requires !s.UnlockPop? && !s.TakeItem? && !s.MoveAll?
    ensures Inv(Apply(q, s)) && Content(Apply(q, s)) == Content(q)
  {
  }

  /** Every step of any thread keeps the invariant, and does to the queue of items
      what a push, a pop, a move or nothing at all would do. */
  lemma {:induction false} StepRefines<T>(q: Queue<T>, s: Step<T>)
    requires Inv(q) && Enabled(q, s)
    ensures Defined(q, s)
    ensures var r := Apply(q, s);
      && Inv(r)
      && match s
         case StoreTail => Content(r) == Content(q) + [q.tailSection.item]
         case AdvanceHead => Content(q) == [q.nodes[q.headSection.node].data.value] + Content(r)
         case MoveAll =>
           && Content(r) == []
           && r.handedOver == q.handedOver + [q.chain]
           && Items(r.nodes, q.chain) == Content(q)
         case _ => Content(r) == Content(q)
  {
    StepsAreDefined(q, s);
    match s
    case LockPush(_, _) => LockPushStep(q, s);
    case StoreData => StoreSteps(q, s);
    case StoreNext => StoreSteps(q, s);
    case StoreTail => StoreTailStep(q);
    case AdvanceHead => AdvanceHeadStep(q);
    case UnlockPop => UnlockPopStep(q);
    case TakeItem(t) => TakeItemStep(q, t);
    case MoveAll => MoveAllStep(q);
    case _ => OtherSteps(q, s);
  }

  // -------------------------------------------------------------------- runs

  /** A run of the queue: each step is one that some thread can take. */
  ghost predicate Run<T>(q: Queue<T>, steps: seq<Step<T>>, r: Queue<T>)
    decreases steps
  {
    if steps == [] then r == q
    else Enabled(q, steps[0]) && Defined(q, steps[0]) && Run(Apply(q, steps[0]), steps[1..], r)
  }

  lemma {:induction false} RunKeeps<T>(q: Queue<T>, steps: seq<Step<T>>, r: Queue<T>)
    requires Inv(q) && Run(q, steps, r)
    ensures Inv(r)
    decreases steps
  {
    if steps != [] {
      StepRefines(q, steps[0]);
      RunKeeps(Apply(q, steps[0]), steps[1..], r);
    }
  }

  /** In every run of a new queue, the items pushed are the items taken off, by a
      pop or a move, followed by the items still there, in the same order. */
  lemma {:induction false} FirstInFirstOut<T>(steps: seq<Step<T>>, r: Queue<T>)
    requires Run(New(), steps, r)
    ensures Inv(r) && r.pushed == r.removed + Content(r)
  {
    RunKeeps(New(), steps, r);
  }

  /** The cells that the holder of the head lock, or a thread that popped, reads
      and changes; and those of the thread that pushes. */
  function PopTouches<T>(q: Queue<T>): set<NodeId> {
    (if q.headSection.PopTook? || q.headSection.PopAdvanced? then {q.headSection.node} else {})
    + q.owned.Values
  }

  function PushTouches<T>(q: Queue<T>): set<NodeId> {
    if q.tailSection.Push? && !q.tailSection.stage.TailSet? then {q.tail, q.tailSection.dummy} else {}
  }

  lemma {:induction false} PushAndPopApart<T>(q: Queue<T>)
    requires Inv(q)
    ensures PopTouches(q) !! PushTouches(q)
  {
    forall x | x in PopTouches(q) ensures x !in PushTouches(q) {
      if x in q.owned.Values {
        var t :| t in q.owned && q.owned[t] == x;
        assert HasItem(q.nodes, q.role, x, Owned(t));
      }
    }
  }

  /** What a thread takes out of its node is the item that its pop took off the
      queue: nothing writes to the node in between. */
  lemma {:induction false} OwnedItemIsStable<T>(q: Queue<T>, s: Step<T>, t: Thread)
    requires Inv(q) && Enabled(q, s) && Defined(q, s)
    requires t in q.owned && s != TakeItem(t)
    ensures var r := Apply(q, s);
      t in r.owned && r.owned[t] == q.owned[t] && q.owned[t] in r.nodes
      && r.nodes[q.owned[t]].data == q.nodes[q.owned[t]].data
  {
    assert HasItem(q.nodes, q.role, q.owned[t], Owned(t));
    match s
    case TakeItem(u) => assert HasItem(q.nodes, q.role, q.owned[u], Owned(u));
    case _ =>
  }

  /** A pop finds nothing exactly when the queue was empty as it read the tail. */
  lemma {:induction false} EmptyIsSeenRight<T>(q: Queue<T>)
    requires Inv(q) && Enabled(q, ReadTail)
    ensures (Apply(q, ReadTail).head == Some(Apply(q, ReadTail).headSection.end)) == (Content(q) == [])
  {
  }

  /** The two locks never block each other for good: while one is held, its holder
      or the holder of the other can take a step. */
  lemma {:induction false} LocksMakeProgress<T>(q: Queue<T>) returns (s: Step<T>)
    requires Inv(q) && (!q.headSection.HeadFree? || !q.tailSection.TailFree?)
    ensures Enabled(q, s) && !s.LockPush? && !s.LockPop? && !s.LockHeadForMove? && !s.TakeItem?
  {
    match q.tailSection
    case Push(_, _, _, stage) =>
      s := match stage
        case Start => StoreData
        case DataSet => StoreNext
        case NextSet => StoreTail
        case TailSet => UnlockPush;
    case TailRead(_) => s := ReadTail;
    case MoveTail(_) => s := UnlockMove;
    case TailFree =>
      s := match q.headSection
        case PopLocked(_) => LockTailForRead
        case PopSawTail(_, end) => if q.head == Some(end) then GiveUp else TakeHead
        case PopTook(_, _) => AdvanceHead
        case PopAdvanced(_, _) => UnlockPop
        case _ => LockTailForMove;
  }
}
