/** The queue of convey transactions. A transaction that ends tells its client, who may
    start more; what the clients start, and whether executing a transaction starts it or
    ends it at once, is part of the transaction. */
module ConveyManager {

  /** `callback` are the transactions that the client starts when it is told the result. */
  datatype Trans = Trans(id: nat, starts: bool, hasClient: bool, callback: seq<Trans>)

  datatype Entry = Entry(trans: Trans, executing: bool)

  function Size(t: Trans): nat {
    1 + TotalSize(t.callback)
  }

  function TotalSize(ts: seq<Trans>): nat {
    if ts == [] then 0 else Size(ts[0]) + TotalSize(ts[1..])
  }

  function QueueSize(q: seq<Entry>): nat {
    if q == [] then 0 else Size(q[0].trans) + QueueSize(q[1..])
  }

  /** New entries for transactions that have to wait. */
  function AsWaiting(ts: seq<Trans>): seq<Entry> {
    if ts == [] then [] else [Entry(ts[0], false)] + AsWaiting(ts[1..])
  }

  function WaitingIds(q: seq<Entry>): seq<nat> {
    if q == [] then []
    else if q[0].executing then WaitingIds(q[1..])
    else [q[0].trans.id] + WaitingIds(q[1..])
  }

  function Executing(q: seq<Entry>): nat {
    if q == [] then 0 else (if q[0].executing then 1 else 0) + Executing(q[1..])
  }

  lemma {:induction false} QueueSizeConcat(a: seq<Entry>, b: seq<Entry>)
    ensures QueueSize(a + b) == QueueSize(a) + QueueSize(b)
  {
    if a == [] {
      assert a + b == b;
    } else {
      assert (a + b)[1..] == a[1..] + b;
      QueueSizeConcat(a[1..], b);
    }
  }

  lemma {:induction false} AsWaitingSize(ts: seq<Trans>)
    ensures QueueSize(AsWaiting(ts)) == TotalSize(ts) && |AsWaiting(ts)| == |ts|
    ensures Executing(AsWaiting(ts)) == 0
    ensures forall i :: 0 <= i < |ts| ==> AsWaiting(ts)[i] == Entry(ts[i], false)
  {
    if ts != [] {
      AsWaitingSize(ts[1..]);
      assert AsWaiting(ts)[1..] == AsWaiting(ts[1..]);
    }
  }

  lemma {:induction false} WaitingConcat(a: seq<Entry>, b: seq<Entry>)
    ensures WaitingIds(a + b) == WaitingIds(a) + WaitingIds(b)
    ensures Executing(a + b) == Executing(a) + Executing(b)
  {
    if a == [] {
      assert a + b == b;
    } else {
      assert (a + b)[1..] == a[1..] + b;
      WaitingConcat(a[1..], b);
    }
  }

  lemma {:induction false} OneWaiting(e: Entry)
    ensures WaitingIds([e]) == if e.executing then [] else [e.trans.id]
    ensures Executing([e]) == if e.executing then 1 else 0
  {
  }

  lemma {:induction false} WaitingSplit(q: seq<Entry>, i: nat)
    requires i < |q|
    ensures WaitingIds(q) == WaitingIds(q[..i]) + (if q[i].executing then [] else [q[i].trans.id]) + WaitingIds(q[i + 1..])
    ensures Executing(q) == Executing(q[..i]) + (if q[i].executing then 1 else 0) + Executing(q[i + 1..])
  {
    OneWaiting(q[i]);
    hide WaitingIds, Executing;
    assert q == q[..i] + ([q[i]] + q[i + 1..]);
    WaitingConcat(q[..i], [q[i]] + q[i + 1..]);
    WaitingConcat([q[i]], q[i + 1..]);
  }

  // -------------------------------------------------------- the state as a value

  /** The queue, and the history: the transactions submitted, without those cancelled
      before they began, those begun, and those whose clients were told a result, each in
      their order. */
  datatype Mgr = Mgr(queue: seq<Entry>, submitted: seq<nat>, begun: seq<nat>, told: seq<nat>) {

    /** Transactions begin in the order in which they were submitted. */
    predicate InOrder() {
      submitted == begun + WaitingIds(queue)
    }

    /** A queue at rest has an executing head. */
    predicate HeadRuns() {
      queue == [] || queue[0].executing
    }

    function Submit(t: Trans): Mgr {
      if queue != [] then
        this.(queue := queue + [Entry(t, false)], submitted := submitted + [t.id])
      else
        Mgr(if t.starts then [Entry(t, true)] else [], submitted + [t.id], begun + [t.id], told)
    }

    function SubmitAll(ts: seq<Trans>): Mgr
      decreases ts
    {
      if ts == [] then this else Submit(ts[0]).SubmitAll(ts[1..])
    }

    function Notify(t: Trans): Mgr {
      if t.hasClient then SubmitAll(t.callback).(told := told + [t.id]) else this
    }

    function Remove(i: nat): Mgr
      requires i < |queue|
    {
      this.(queue := queue[..i] + queue[i + 1..])
    }

    function Begin(i: nat): Mgr
      requires i < |queue|
    {
      this.(queue := queue[i := queue[i].(executing := true)], begun := begun + [queue[i].trans.id])
    }

    /** The loop of trans_finished from position `it` on. When the last element is erased
        the iterator is at the end, and stays there if the callback appends more. */
    function Sweep(it: nat): (m: Mgr)
      requires it <= |queue|
      decreases QueueSize(queue[it..]), |queue| - it
    {
      if it == |queue| then this
      else if queue[it].executing then
        SweepSkips(queue, it); Sweep(it + 1)
      else if queue[it].trans.starts then Begin(it)
      else
        var t := queue[it].trans;
        var erased := Begin(it).Remove(it);
        if it == |erased.queue| then erased.Notify(t)
        else SweepErases(this, it); erased.Notify(t).Sweep(it)
    }

    /** The loop of on_trans_canceled. */
    function StartHead(): (m: Mgr)
      decreases QueueSize(queue)
    {
      if queue == [] || queue[0].executing then this
      else if queue[0].trans.starts then Begin(0)
      else
        var t := queue[0].trans;
        var erased := Begin(0).Remove(0);
        if erased.queue == [] then erased.Notify(t)
        else SweepErases(this, 0); erased.Notify(t).StartHead()
    }

    /** The transaction at position i finished. */
    function TransFinished(i: nat): Mgr
      requires i < |queue|
    {
      Remove(i).Notify(queue[i].trans).Sweep(0)
    }

    /** The transaction at position i is cancelled. */
    function TakeOut(i: nat): Mgr
      requires i < |queue|
    {
      var p := |begun| + |WaitingIds(queue[..i])|;
      var m := if queue[i].executing || p >= |submitted| then this
               else this.(submitted := submitted[..p] + submitted[p + 1..]);
      m.Remove(i)
    }

    function Cancel(i: nat): Mgr
      requires i < |queue|
    {
      TakeOut(i).StartHead()
    }
  }

  lemma {:induction false} SweepSkips(q: seq<Entry>, it: nat)
    requires it < |q|
    ensures QueueSize(q[it + 1..]) < QueueSize(q[it..])
  {
    assert q[it..][1..] == q[it + 1..];
  }

  lemma {:induction false} SubmitAllAppends(m: Mgr, ts: seq<Trans>)
    requires m.queue != []
    ensures m.SubmitAll(ts).queue == m.queue + AsWaiting(ts)
    ensures m.SubmitAll(ts).begun == m.begun
    decreases ts
  {
    if ts != [] {
      SubmitAllAppends(m.Submit(ts[0]), ts[1..]);
    }
  }

  lemma {:induction false} SweepErases(m: Mgr, it: nat)
    requires it < |m.queue| && |m.queue| > 1
    ensures var t := m.queue[it].trans;
      var after := m.Begin(it).Remove(it).Notify(t);
      && it <= |after.queue| && QueueSize(after.queue[it..]) < QueueSize(m.queue[it..])
      && after.queue == m.queue[..it] + m.queue[it + 1..] + (if t.hasClient then AsWaiting(t.callback) else [])
  {
    var t := m.queue[it].trans;
    var erased := m.Begin(it).Remove(it);
    assert erased.queue == m.queue[..it] + m.queue[it + 1..];
    SubmitAllAppends(erased, t.callback);
    AsWaitingSize(t.callback);
    var more := if t.hasClient then AsWaiting(t.callback) else [];
    assert (erased.queue + more)[it..] == m.queue[it + 1..] + more;
    QueueSizeConcat(m.queue[it + 1..], more);
    assert m.queue[it..][1..] == m.queue[it + 1..];
  }

  // -------------------------------------------------------------- what is kept

  lemma {:induction false} SubmitKeeps(m: Mgr, t: Trans)
    requires m.HeadRuns() && m.InOrder()
    ensures m.Submit(t).HeadRuns() && m.Submit(t).InOrder()
  {
    if m.queue != [] {
      WaitingConcat(m.queue, [Entry(t, false)]);
      assert [Entry(t, false)][1..] == [];
    } else {
      assert [Entry(t, true)][1..] == [];
    }
  }

  lemma {:induction false} SubmitAllKeeps(m: Mgr, ts: seq<Trans>)
    requires m.HeadRuns() && m.InOrder()
    ensures m.SubmitAll(ts).HeadRuns() && m.SubmitAll(ts).InOrder()
    decreases ts
  {
    if ts != [] {
      SubmitKeeps(m, ts[0]);
      SubmitAllKeeps(m.Submit(ts[0]), ts[1..]);
    }
  }

  lemma {:induction false} SubmitInOrder(m: Mgr, ts: seq<Trans>)
    requires m.InOrder()
    ensures m.SubmitAll(ts).InOrder()
    decreases ts
  {
    if ts != [] {
      if m.queue != [] {
        WaitingConcat(m.queue, [Entry(ts[0], false)]);
        assert [Entry(ts[0], false)][1..] == [];
      } else {
        assert [Entry(ts[0], true)][1..] == [];
      }
      SubmitInOrder(m.Submit(ts[0]), ts[1..]);
    }
  }

  /** Executing the first of those that wait. */
  lemma {:induction false} BeginKeeps(m: Mgr, i: nat)
    requires m.InOrder() && i < |m.queue| && !m.queue[i].executing && WaitingIds(m.queue[..i]) == []
    ensures m.Begin(i).InOrder() && m.Begin(i).Remove(i).InOrder()
    ensures Executing(m.Begin(i).queue) == Executing(m.queue) + 1
    ensures Executing(m.Begin(i).Remove(i).queue) == Executing(m.queue)
  {
    hide WaitingIds, Executing, QueueSize;
    var begun := m.Begin(i);
    WaitingSplit(m.queue, i);
    WaitingSplit(begun.queue, i);
    assert begun.queue[..i] == m.queue[..i] && begun.queue[i + 1..] == m.queue[i + 1..];
    WaitingConcat(m.queue[..i], m.queue[i + 1..]);
  }

  predicate AllExecuting(q: seq<Entry>) {
    forall i :: 0 <= i < |q| ==> q[i].executing
  }

  lemma {:induction false} ExecutingWaitsNot(q: seq<Entry>)
    requires AllExecuting(q)
    ensures WaitingIds(q) == [] && Executing(q) == |q|
  {
    if q != [] {
      ExecutingWaitsNot(q[1..]);
    }
  }

  /** Wherever the loop of trans_finished starts behind executing transactions, it
      leaves the queue in order and with an executing head. */
  lemma {:induction false} SweepKeeps(m: Mgr, it: nat)
    requires m.InOrder() && it <= |m.queue| && AllExecuting(m.queue[..it])
    ensures m.Sweep(it).InOrder() && m.Sweep(it).HeadRuns()
    decreases QueueSize(m.queue[it..]), |m.queue| - it
  {
    if it < |m.queue| {
      ExecutingWaitsNot(m.queue[..it]);
      if m.queue[it].executing {
        SweepSkips(m.queue, it);
        SweepKeeps(m, it + 1);
      } else {
        BeginKeeps(m, it);
        if !m.queue[it].trans.starts {
          SweepErasing(m, it);
        }
      }
    }
  }

  lemma {:induction false} SweepErasing(m: Mgr, it: nat)
    requires m.InOrder() && it < |m.queue| && AllExecuting(m.queue[..it])
    requires !m.queue[it].executing && !m.queue[it].trans.starts
    requires m.Begin(it).Remove(it).InOrder()
    ensures m.Sweep(it).InOrder() && m.Sweep(it).HeadRuns()
    decreases QueueSize(m.queue[it..]), |m.queue| - it, 0
  {
    var t := m.queue[it].trans;
    var erased := m.Begin(it).Remove(it);
    assert erased.queue == m.queue[..it] + m.queue[it + 1..];
    SubmitInOrder(erased, t.callback);
    if it == |erased.queue| {
      assert it > 0 ==> m.queue[..it][0].executing;
      SubmitAllKeeps(erased, t.callback);
    } else {
      SweepErases(m, it);
      var after := erased.Notify(t);
      assert after.queue[..it] == m.queue[..it];
      SweepKeeps(after, it);
    }
  }

  /** The end of a transaction keeps the queue in order, with an executing head. */
  lemma {:induction false} TransFinishedKeeps(m: Mgr, i: nat)
    requires m.HeadRuns() && m.InOrder() && i < |m.queue| && m.queue[i].executing
    ensures m.TransFinished(i).HeadRuns() && m.TransFinished(i).InOrder()
  {
    WaitingSplit(m.queue, i);
    WaitingConcat(m.queue[..i], m.queue[i + 1..]);
    SubmitInOrder(m.Remove(i), m.queue[i].trans.callback);
    SweepKeeps(m.Remove(i).Notify(m.queue[i].trans), 0);
  }

  lemma {:induction false} StartHeadKeeps(m: Mgr)
    requires m.InOrder()
    ensures m.StartHead().InOrder() && m.StartHead().HeadRuns()
    ensures Executing(m.queue) == 0 ==> Executing(m.StartHead().queue) <= 1
    decreases QueueSize(m.queue)
  {
    if m.queue != [] && !m.queue[0].executing {
      assert WaitingIds(m.queue[..0]) == [];
      BeginKeeps(m, 0);
      var t := m.queue[0].trans;
      var erased := m.Begin(0).Remove(0);
      SubmitInOrder(erased, t.callback);
      if !t.starts {
        if erased.queue == [] {
          SubmitAllKeeps(erased, t.callback);
          SubmitAllFromNothing(erased, t.callback);
        } else {
          SweepErases(m, 0);
          AsWaitingSize(t.callback);
          WaitingConcat(m.queue[..0] + m.queue[1..], if t.hasClient then AsWaiting(t.callback) else []);
          assert m.queue[..0] + m.queue[1..] == erased.queue;
          StartHeadKeeps(erased.Notify(t));
        }
      }
    }
  }

  /** What follows the first transaction that starts. */
  function AfterFirstStart(ts: seq<Trans>): seq<Trans> {
    if ts == [] then [] else if ts[0].starts then ts[1..] else AfterFirstStart(ts[1..])
  }

  /** Starting transactions from an empty queue: the first that starts executes, and
      the rest waits. */
  lemma {:induction false} SubmitAllFromNothing(m: Mgr, ts: seq<Trans>)
    requires m.queue == []
    ensures var q := m.SubmitAll(ts).queue;
      && (q == [] ==> AfterFirstStart(ts) == [])
      && (q != [] ==> q[0].executing && q[1..] == AsWaiting(AfterFirstStart(ts)))
      && Executing(q) <= 1 && QueueSize(q) <= TotalSize(ts)
    decreases ts
  {
    if ts != [] {
      var m' := m.Submit(ts[0]);
      if ts[0].starts {
        SubmitAllAppends(m', ts[1..]);
        AsWaitingSize(ts[1..]);
        var q := m.SubmitAll(ts).queue;
        assert q == [Entry(ts[0], true)] + AsWaiting(ts[1..]);
        assert q[1..] == AsWaiting(ts[1..]);
      } else {
        SubmitAllFromNothing(m', ts[1..]);
      }
    }
  }

  function Told(t: Trans): seq<Trans> {
    if t.hasClient then t.callback else []
  }

  lemma {:induction false} TotalSizeConcat(a: seq<Trans>, b: seq<Trans>)
    ensures TotalSize(a + b) == TotalSize(a) + TotalSize(b)
  {
    if a == [] {
      assert a + b == b;
    } else {
      assert (a + b)[1..] == a[1..] + b;
      TotalSizeConcat(a[1..], b);
    }
  }

  lemma {:induction false} TotalShrinks(ws: seq<Trans>)
    requires ws != []
    ensures TotalSize(ws[1..] + Told(ws[0])) < TotalSize(ws)
  {
    TotalSizeConcat(ws[1..], Told(ws[0]));
    assert TotalSize([]) == 0;
  }

  /** Whether the loop of trans_finished, coming to these waiting transactions, starts
      one. It goes on past those that end at once, and with what their clients add, but
      not past the last in the queue. */
  predicate Starts(ws: seq<Trans>)
    decreases TotalSize(ws)
  {
    ws != [] && (ws[0].starts || (|ws| > 1 && (TotalShrinks(ws); Starts(ws[1..] + Told(ws[0])))))
  }

  lemma {:induction false} AsWaitingConcat(a: seq<Trans>, b: seq<Trans>)
    ensures AsWaiting(a + b) == AsWaiting(a) + AsWaiting(b)
  {
    if a == [] {
      assert a + b == b;
    } else {
      assert (a + b)[1..] == a[1..] + b;
      AsWaitingConcat(a[1..], b);
    }
  }

  /** Behind executing transactions the loop starts one more exactly in that case. */
  lemma {:induction false} SweepStartsOne(m: Mgr, pre: seq<Entry>, ws: seq<Trans>)
    requires m.queue == pre + AsWaiting(ws) && pre != [] && AllExecuting(pre)
    ensures Executing(m.Sweep(|pre|).queue) == |pre| + (if Starts(ws) then 1 else 0)
    decreases TotalSize(ws)
  {
    var it := |pre|;
    AsWaitingSize(ws);
    ExecutingWaitsNot(pre);
    WaitingConcat(pre, AsWaiting(ws));
    if ws != [] {
      assert m.queue[it] == Entry(ws[0], false) && m.queue[..it] == pre && m.queue[it + 1..] == AsWaiting(ws[1..]);
      if ws[0].starts {
        WaitingSplit(m.Begin(it).queue, it);
        WaitingSplit(m.queue, it);
        assert m.Begin(it).queue[..it] == pre && m.Begin(it).queue[it + 1..] == AsWaiting(ws[1..]);
      } else {
        SweepGoesOn(m, pre, ws);
      }
    }
  }

  lemma {:induction false} SweepErased(m: Mgr, it: nat)
    requires it < |m.queue| && !m.queue[it].executing && !m.queue[it].trans.starts
    ensures var t := m.queue[it].trans;
      var after := m.Begin(it).Remove(it).Notify(t);
      m.Sweep(it) == if it + 1 == |m.queue| then after else (SweepErases(m, it); after.Sweep(it))
  {
  }

  lemma {:induction false} QueueAfterErasing(m: Mgr, pre: seq<Entry>, ws: seq<Trans>)
    requires ws != [] && pre != [] && |m.queue| > |pre|
    requires m.queue[|pre|] == Entry(ws[0], false) && m.queue[..|pre|] == pre
    requires m.queue[|pre| + 1..] == AsWaiting(ws[1..])
    ensures m.Begin(|pre|).Remove(|pre|).Notify(ws[0]).queue == pre + AsWaiting(ws[1..] + Told(ws[0]))
  {
    var erased := m.Begin(|pre|).Remove(|pre|);
    assert erased.queue == pre + AsWaiting(ws[1..]);
    SubmitAllAppends(erased, ws[0].callback);
    AsWaitingConcat(ws[1..], Told(ws[0]));
    assert AsWaiting([]) == [];
  }

  lemma {:induction false} SweepGoesOn(m: Mgr, pre: seq<Entry>, ws: seq<Trans>)
    requires pre != [] && AllExecuting(pre) && ws != [] && !ws[0].starts && |m.queue| == |pre| + |ws|
    requires m.queue[|pre|] == Entry(ws[0], false) && m.queue[..|pre|] == pre
    requires m.queue[|pre| + 1..] == AsWaiting(ws[1..])
    ensures Executing(m.Sweep(|pre|).queue) == |pre| + (if Starts(ws) then 1 else 0)
    decreases TotalSize(ws), 0
  {
    var more := ws[1..] + Told(ws[0]);
    QueueAfterErasing(m, pre, ws);
    TotalShrinks(ws);
    ExecutingWaitsNot(pre);
    SweepErased(m, |pre|);
    hide QueueSize, TotalSize, WaitingIds, Executing, AsWaiting, Mgr.Notify, Mgr.Sweep, Mgr.Begin, Mgr.Remove;
    if |ws| == 1 {
      AsWaitingSize(more);
      WaitingConcat(pre, AsWaiting(more));
    } else {
      SweepStartsOne(m.Begin(|pre|).Remove(|pre|).Notify(ws[0]), pre, more);
    }
  }

  /** From the head of a queue of waiting transactions it starts at most one. */
  lemma {:induction false} SweepStartsAtMostOne(m: Mgr)
    requires Executing(m.queue) == 0
    ensures Executing(m.Sweep(0).queue) <= 1
    decreases QueueSize(m.queue)
  {
    if m.queue != [] {
      assert !m.queue[0].executing && m.queue[0..] == m.queue;
      var t := m.queue[0].trans;
      var erased := m.Begin(0).Remove(0);
      assert erased.queue == m.queue[1..];
      if t.starts {
        assert m.Begin(0).queue[1..] == m.queue[1..];
      } else if erased.queue == [] {
        SubmitAllFromNothing(erased, t.callback);
      } else {
        SweepErases(m, 0);
        AsWaitingSize(t.callback);
        var more := if t.hasClient then AsWaiting(t.callback) else [];
        WaitingConcat(m.queue[1..], more);
        assert m.queue[..0] + m.queue[1..] + more == m.queue[1..] + more;
        var after := erased.Notify(t);
        assert after.queue[0..] == after.queue;
        SweepStartsAtMostOne(after);
      }
    }
  }

  /** When the only executing transaction ends, at most one executes afterwards, except
      in one case: nobody waited, and its client started one that executes and then more,
      one of which the loop comes to and starts beside it. */
  lemma {:induction false} AtMostOneExecutes(m: Mgr)
    requires m.queue != [] && m.queue[0].executing && Executing(m.queue) == 1
    ensures Executing(m.TransFinished(0).queue) <= 1 <==>
      |m.queue| > 1 || !Starts(AfterFirstStart(Told(m.queue[0].trans)))
  {
    var t := m.queue[0].trans;
    var rest := m.Remove(0);
    assert rest.queue == m.queue[1..] && Executing(rest.queue) == 0;
    var after := rest.Notify(t);
    if |m.queue| > 1 {
      SubmitAllAppends(rest, t.callback);
      AsWaitingSize(t.callback);
      WaitingConcat(rest.queue, AsWaiting(t.callback));
      SweepStartsAtMostOne(after);
    } else {
      SubmitAllFromNothing(rest, Told(t));
      if after.queue != [] {
        var pre := after.queue[..1];
        assert after.queue == pre + AsWaiting(AfterFirstStart(Told(t)));
        SweepStartsOne(after, pre, AfterFirstStart(Told(t)));
        SweepSkips(after.queue, 0);
      }
    }
  }

  /** Clients that start at most one transaction are safe. */
  lemma {:induction false} OneAtATimeIsSafe(m: Mgr)
    requires m.queue != [] && m.queue[0].executing && Executing(m.queue) == 1
    requires |Told(m.queue[0].trans)| <= 1
    ensures Executing(m.TransFinished(0).queue) <= 1
  {
    var ts := Told(m.queue[0].trans);
    assert ts != [] ==> ts[1..] == [];
    AtMostOneExecutes(m);
  }

  /** A client that starts two transactions, both of which execute, when it is told. */
  lemma {:induction false} TwoMayExecute()
    ensures var next := [Trans(1, true, false, []), Trans(2, true, false, [])];
      Executing(Mgr([Entry(Trans(0, true, true, next), true)], [0], [0], []).TransFinished(0).queue) == 2
  {
    var a, b := Trans(1, true, false, []), Trans(2, true, false, []);
    var t := Trans(0, true, true, [a, b]);
    var m := Mgr([Entry(t, true)], [0], [0], []);
    var rest := m.Remove(0);
    assert rest.queue == [];
    var after := rest.Submit(a).Submit(b);
    assert [a, b][1..] == [b] && [b][1..] == [];
    assert rest.SubmitAll([a, b]) == rest.Submit(a).SubmitAll([b]) == after.SubmitAll([]) == after;
    assert after.queue == [Entry(a, true)] + AsWaiting([b]);
    assert m.Remove(0).Notify(t) == after.(told := [0]);
    SweepStartsOne(after.(told := [0]), [Entry(a, true)], [b]);
    SweepSkips(after.queue, 0);
  }

  /** Where the history has a transaction that waits. */
  lemma {:induction false} WaitingAt(m: Mgr, i: nat)
    requires m.InOrder() && i < |m.queue|
    ensures !m.queue[i].executing ==>
      var p := |m.begun| + |WaitingIds(m.queue[..i])|;
      && p < |m.submitted|
      && m.submitted[..p] == m.begun + WaitingIds(m.queue[..i])
      && m.submitted[p + 1..] == WaitingIds(m.queue[i + 1..])
  {
    var q := m.queue;
    WaitingSplit(q, i);
    hide WaitingIds, Executing;
    if !q[i].executing {
      assert m.submitted == m.begun + WaitingIds(q[..i]) + [q[i].trans.id] + WaitingIds(q[i + 1..]);
    }
  }

  /** Taking a transaction out, and out of the history if it waits, keeps the order. */
  lemma {:induction false} TakenOutKeeps(m: Mgr, i: nat)
    requires m.InOrder() && i < |m.queue|
    ensures m.TakeOut(i).InOrder()
    ensures Executing(m.TakeOut(i).queue) == Executing(m.queue) - if m.queue[i].executing then 1 else 0
  {
    WaitingSplit(m.queue, i);
    WaitingConcat(m.queue[..i], m.queue[i + 1..]);
    WaitingAt(m, i);
    hide WaitingIds, Executing;
  }

  /** Cancelling never lets two execute. */
  lemma {:induction false} CancelKeeps(m: Mgr, i: nat)
    requires m.HeadRuns() && m.InOrder() && i < |m.queue|
    ensures m.Cancel(i).HeadRuns() && m.Cancel(i).InOrder()
    ensures Executing(m.queue) <= 1 ==> Executing(m.Cancel(i).queue) <= 1
  {
    TakenOutKeeps(m, i);
    var left := m.TakeOut(i);
    StartHeadKeeps(left);
    hide WaitingIds, Executing;
    if i > 0 {
      assert left.queue[0] == m.queue[0];
      assert left.StartHead() == left;
    }
  }

  // -------------------------------------------------------- telling the clients

  /** The clients of those at the front of a queue that end at once when they are executed.
      An executing one ends the loop of on_trans_canceled; that of trans_finished skips it. */
  function EndAtOnce(q: seq<Entry>, skips: bool): seq<nat> {
    if StopsAt(q, skips) then []
    else (if !q[0].executing && q[0].trans.hasClient then [q[0].trans.id] else []) + EndAtOnce(q[1..], skips)
  }

  predicate StopsAt(q: seq<Entry>, skips: bool) {
    q == [] || (if q[0].executing then !skips else q[0].trans.starts)
  }

  /** Some transaction of the queue ends the loop. */
  predicate StopsWithin(q: seq<Entry>, skips: bool) {
    q != [] && (StopsAt(q, skips) || StopsWithin(q[1..], skips))
  }

  lemma {:induction false} EndAtOnceConcat(a: seq<Entry>, b: seq<Entry>, skips: bool)
    ensures EndAtOnce(a, skips) <= EndAtOnce(a + b, skips)
    ensures StopsWithin(a, skips) ==> EndAtOnce(a + b, skips) == EndAtOnce(a, skips) && StopsWithin(a + b, skips)
  {
    if a != [] {
      assert (a + b)[1..] == a[1..] + b;
      EndAtOnceConcat(a[1..], b, skips);
    }
  }

  /** When one was cancelled, the clients of those that end at once are told, in their order;
      and nobody else, if the loop comes to one that starts. */
  lemma {:induction false} StartHeadTells(m: Mgr)
    ensures m.told + EndAtOnce(m.queue, false) <= m.StartHead().told
    ensures StopsWithin(m.queue, false) ==> m.StartHead().told == m.told + EndAtOnce(m.queue, false)
    decreases QueueSize(m.queue)
  {
    if !StopsAt(m.queue, false) {
      var t := m.queue[0].trans;
      var erased := m.Begin(0).Remove(0);
      assert erased.queue == m.queue[1..];
      if erased.queue != [] {
        SweepErases(m, 0);
        var more := if t.hasClient then AsWaiting(t.callback) else [];
        assert m.queue[..0] + m.queue[1..] + more == m.queue[1..] + more;
        EndAtOnceConcat(m.queue[1..], more, false);
        assert m.queue[0..] == m.queue && erased.Notify(t).queue[0..] == erased.Notify(t).queue;
        StartHeadTells(erased.Notify(t));
      }
    }
  }

  /** The loop of trans_finished tells the clients of those that end at once when it comes to
      them. */
  lemma {:induction false} SweepTells(m: Mgr, it: nat)
    requires it <= |m.queue|
    ensures m.told + EndAtOnce(m.queue[it..], true) <= m.Sweep(it).told
    ensures StopsWithin(m.queue[it..], true) ==> m.Sweep(it).told == m.told + EndAtOnce(m.queue[it..], true)
    decreases QueueSize(m.queue[it..]), |m.queue| - it
  {
    if it < |m.queue| {
      assert m.queue[it..][1..] == m.queue[it + 1..];
      if m.queue[it].executing {
        SweepSkips(m.queue, it);
        SweepTells(m, it + 1);
      } else if !m.queue[it].trans.starts {
        SweepTellsOne(m, it);
      }
    }
  }

  lemma {:induction false} ToldOn(told: seq<nat>, now: seq<nat>, a: seq<nat>, b: seq<nat>, last: seq<nat>)
    requires a <= b && told + now + b <= last
    ensures told + (now + a) <= last
    ensures a == b && told + now + b == last ==> told + (now + a) == last
  {
  }

  lemma {:induction false} SweepTellsOne(m: Mgr, it: nat)
    requires it < |m.queue| && !m.queue[it].executing && !m.queue[it].trans.starts
    ensures m.told + EndAtOnce(m.queue[it..], true) <= m.Sweep(it).told
    ensures StopsWithin(m.queue[it..], true) ==> m.Sweep(it).told == m.told + EndAtOnce(m.queue[it..], true)
    decreases QueueSize(m.queue[it..]), |m.queue| - it, 0
  {
    var after := m.Begin(it).Remove(it).Notify(m.queue[it].trans);
    hide *;
    var now := if m.queue[it].trans.hasClient then [m.queue[it].trans.id] else [];
    ErasedTells(m, it);
    SweepErased(m, it);
    if it + 1 < |m.queue| {
      SweepTells(after, it);
      ToldOn(m.told, now, EndAtOnce(m.queue[it + 1..], true), EndAtOnce(after.queue[it..], true), m.Sweep(it).told);
    } else {
      ToldOn(m.told, now, [], [], m.Sweep(it).told);
    }
  }

  /** When one finished, its client is told first, then those of the transactions that wait
      behind it and end at once. */
  lemma {:induction false} FinishTells(m: Mgr, i: nat)
    requires i < |m.queue|
    ensures var t := m.queue[i].trans;
      var first := m.told + (if t.hasClient then [t.id] else []);
      && first + EndAtOnce(m.Remove(i).queue, true) <= m.TransFinished(i).told
      && (StopsWithin(m.Remove(i).queue, true) ==> m.TransFinished(i).told == first + EndAtOnce(m.Remove(i).queue, true))
  {
    var t := m.queue[i].trans;
    var rest := m.Remove(i);
    var after := rest.Notify(t);
    hide EndAtOnce, StopsWithin, StopsAt, Mgr.Sweep;
    assert after.queue[0..] == after.queue;
    SweepTells(after, 0);
    if rest.queue != [] {
      SubmitAllAppends(rest, t.callback);
      var more := if t.hasClient then AsWaiting(t.callback) else [];
      assert after.queue == rest.queue + more;
      EndAtOnceConcat(rest.queue, more, true);
    } else {
      NothingEnds();
    }
  }

  lemma {:induction false} NothingEnds()
    ensures EndAtOnce([], true) == [] && !StopsWithin([], true)
  {
  }

  /** One that ends at once was told; what its client starts comes behind the others. */
  lemma {:induction false} ErasedTells(m: Mgr, it: nat)
    requires it < |m.queue| && !m.queue[it].executing && !m.queue[it].trans.starts
    ensures var t := m.queue[it].trans;
      var after := m.Begin(it).Remove(it).Notify(t);
      && EndAtOnce(m.queue[it..], true) == (if t.hasClient then [t.id] else []) + EndAtOnce(m.queue[it + 1..], true)
      && StopsWithin(m.queue[it..], true) == StopsWithin(m.queue[it + 1..], true)
      && after.told == m.told + (if t.hasClient then [t.id] else [])
      && (it + 1 == |m.queue| ==> EndAtOnce(m.queue[it + 1..], true) == [] && !StopsWithin(m.queue[it + 1..], true))
      && (it + 1 < |m.queue| ==>
            && it <= |after.queue| && QueueSize(after.queue[it..]) < QueueSize(m.queue[it..])
            && EndAtOnce(m.queue[it + 1..], true) <= EndAtOnce(after.queue[it..], true)
            && (StopsWithin(m.queue[it + 1..], true) ==>
                  && EndAtOnce(after.queue[it..], true) == EndAtOnce(m.queue[it + 1..], true)
                  && StopsWithin(after.queue[it..], true)))
  {
    var t := m.queue[it].trans;
    assert m.queue[it..][1..] == m.queue[it + 1..];
    if it + 1 < |m.queue| {
      SweepErases(m, it);
      var more := if t.hasClient then AsWaiting(t.callback) else [];
      var after := m.Begin(it).Remove(it).Notify(t);
      assert after.queue[it..] == m.queue[it + 1..] + more;
      EndAtOnceConcat(m.queue[it + 1..], more, true);
    }
    hide QueueSize, Mgr.SubmitAll;
  }

  // -------------------------------------------------------------- whole runs

  datatype Event = Start(t: Trans) | End(i: nat) | CancelAt(i: nat)

  predicate Possible(m: Mgr, e: Event) {
    match e
    case Start(_) => true
    case End(i) => i < |m.queue| && m.queue[i].executing
    case CancelAt(i) => i < |m.queue|
  }

  function Next(m: Mgr, e: Event): Mgr
    requires Possible(m, e)
  {
    match e
    case Start(t) => m.Submit(t)
    case End(i) => m.TransFinished(i)
    case CancelAt(i) => m.Cancel(i)
  }

  predicate IsRun(states: seq<Mgr>, events: seq<Event>) {
    && |states| == |events| + 1 && states[0] == Mgr([], [], [], [])
    && forall k :: 0 <= k < |events| ==> Possible(states[k], events[k]) && states[k + 1] == Next(states[k], events[k])
  }

  /** An end of a transaction after which the loop does not start a second one. */
  predicate Calm(m: Mgr, e: Event) {
    e.End? && e.i < |m.queue| ==> |m.queue| > 1 || !Starts(AfterFirstStart(Told(m.queue[e.i].trans)))
  }

  lemma {:induction false} NextKeeps(m: Mgr, e: Event)
    requires m.HeadRuns() && m.InOrder() && Possible(m, e)
    ensures Next(m, e).HeadRuns() && Next(m, e).InOrder()
    ensures Executing(m.queue) <= 1 && Calm(m, e) ==> Executing(Next(m, e).queue) <= 1
  {
    match e {
      case Start(t) =>
        SubmitKeeps(m, t);
        WaitingConcat(m.queue, [Entry(t, false)]);
        assert [Entry(t, false)][1..] == [] && [Entry(t, true)][1..] == [];
      case End(i) =>
        TransFinishedKeeps(m, i);
        if Executing(m.queue) <= 1 {
          WaitingSplit(m.queue, i);
          WaitingSplit(m.queue, 0);
          AtMostOneExecutes(m);
        }
      case CancelAt(i) => CancelKeeps(m, i);
    }
  }

  /** In every run of starts, ends and cancellations, transactions begin in the order in
      which they were submitted, and a queue at rest has an executing head; at most one
      transaction executes as long as no end falls under the exception. */
  lemma {:induction false} RunKeeps(states: seq<Mgr>, events: seq<Event>)
    requires IsRun(states, events)
    ensures states[|events|].HeadRuns() && states[|events|].InOrder()
    ensures (forall k :: 0 <= k < |events| ==> Calm(states[k], events[k])) ==> Executing(states[|events|].queue) <= 1
    decreases |events|
  {
    var n := |events| - 1;
    if n >= 0 {
      RunKeeps(states[..n + 1], events[..n]);
      assert forall k :: 0 <= k < n ==> states[..n + 1][k] == states[k] && events[..n][k] == events[k];
      NextKeeps(states[n], events[n]);
    }
  }

  // ------------------------------------------------------------- the manager

  class ConveyManager {
    var queue: seq<Entry>
    ghost var submitted: seq<nat>
    ghost var begun: seq<nat>
    ghost var told: seq<nat>

    ghost function View(): Mgr
      reads this
    {
      Mgr(queue, submitted, begun, told)
    }

    ghost predicate Valid()
      reads this
    {
      View().HeadRuns() && View().InOrder()
    }

    constructor ()
      ensures Valid() && View() == Mgr([], [], [], [])
    {
      queue, submitted, begun, told := [], [], [], [];
    }

    /** Returns whether the transaction has started or waits to be started. */
    method StartTrans(t: Trans) returns (started: bool)
      modifies this
      ensures View() == old(View()).Submit(t)
      ensures started <==> old(queue) != [] || t.starts
      ensures old(Valid()) ==> Valid()
    {
      if Valid() {
        SubmitKeeps(View(), t);
      }
      started := true;
      submitted := submitted + [t.id];
      if |queue| > 0 {
        queue := queue + [Entry(t, false)];
      } else {
        started := t.starts;
        begun := begun + [t.id];
        if started {
          queue := queue + [Entry(t, true)];
        }
      }
    }

    /** Tells the client the result; it starts what it likes. */
    method NotifyResult(t: Trans)
      modifies this
      ensures View() == old(View()).Notify(t)
    {
      if t.hasClient {
        for i := 0 to |t.callback|
          invariant View().SubmitAll(t.callback[i..]) == old(View()).SubmitAll(t.callback) && told == old(told)
        {
          assert t.callback[i..][1..] == t.callback[i + 1..];
          var _ := StartTrans(t.callback[i]);
        }
        told := told + [t.id];
      }
    }

    /** Executes the transaction at position i, which takes it out of the queue if it
        ends at once. */
    method ExecuteAt(i: nat) returns (started: bool)
      requires i < |queue| && !queue[i].executing
      modifies this
      ensures started == old(queue)[i].trans.starts
      ensures View() == if started then old(View()).Begin(i) else old(View()).Begin(i).Remove(i)
    {
      var t := queue[i].trans;
      started := t.starts;
      begun := begun + [t.id];
      if started {
        queue := queue[i := Entry(t, true)];
      } else {
        assert queue[i := Entry(t, true)][..i] == queue[..i];
        assert queue[i := Entry(t, true)][i + 1..] == queue[i + 1..];
        queue := queue[..i] + queue[i + 1..];
      }
    }

    method TransFinished(i: nat)
      requires Valid() && i < |queue| && queue[i].executing
      modifies this
      ensures View() == old(View()).TransFinished(i)
      ensures Valid()
    {
      TransFinishedKeeps(View(), i);
      var trans := queue[i].trans;
      queue := queue[..i] + queue[i + 1..];
      NotifyResult(trans);
      ghost var was := View();
      var it := 0;
      while it < |queue|
        invariant it <= |queue| && View().Sweep(it) == was.Sweep(0)
        decreases QueueSize(queue[it..]), |queue| - it
      {
        SweepSkips(queue, it);
        if queue[it].executing {
          it := it + 1;
          continue;
        }
        var mt := queue[it].trans;
        ghost var before := View();
        var started := ExecuteAt(it);
        if started {
          assert View() == was.Sweep(0);
          return;
        }
        SweepErased(before, it);
        var atEnd := it == |queue|;
        if !atEnd {
          SweepErases(before, it);
        }
        NotifyResult(mt);
        if atEnd {
          assert View() == was.Sweep(0);
          return;
        }
      }
    }

    /** cancel_trans: the transaction leaves the queue, and the head is started. */
    method CancelTrans(i: nat)
      requires Valid() && i < |queue|
      modifies this
      ensures View() == old(View()).Cancel(i)
      ensures Valid() && (Executing(old(queue)) <= 1 ==> Executing(queue) <= 1)
    {
      CancelKeeps(View(), i);
      ghost var p := |begun| + |WaitingIds(queue[..i])|;
      if !queue[i].executing && p < |submitted| {
        submitted := submitted[..p] + submitted[p + 1..];
      }
      queue := queue[..i] + queue[i + 1..];
      OnTransCanceled();
    }

    method OnTransCanceled()
      modifies this
      ensures View() == old(View()).StartHead()
      ensures old(told) + EndAtOnce(old(queue), false) <= told
    {
      StartHeadTells(View());
      while |queue| > 0
        invariant View().StartHead() == old(View()).StartHead()
        decreases QueueSize(queue)
      {
        var trans := queue[0].trans;
        if queue[0].executing {
          return;
        }
        ghost var before := View();
        var started := ExecuteAt(0);
        if started {
          assert queue[0].executing;
          return;
        }
        if |before.queue| > 1 {
          SweepErases(before, 0);
        } else {
          SubmitAllFromNothing(before.Begin(0).Remove(0), trans.callback);
        }
        NotifyResult(trans);
        assert before.queue[0..] == before.queue && queue[0..] == queue;
      }
    }
  }
}
