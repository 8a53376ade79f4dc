/** The timer list. Timers fire in the order of their due times, and those with the same
    due time in the order in which they were set; callbacks add, defer and delete timers
    while the list is being run. */
module TimerManager {
  import opened Basics

  const NS_PER_SEC := 1_000_000_000
  const NS_PER_MS := 1_000_000

  // -------------------------------------------------------------------- times

  datatype TimeSpec = TimeSpec(sec: int, nsec: int) {
    predicate Normal() {
      0 <= nsec < NS_PER_SEC
    }

    function Nanos(): int {
      sec * NS_PER_SEC + nsec
    }
  }

  /** Division and remainder as in C: towards zero. */
  function DivC(a: int, b: int): int
    requires b > 0
  {
    if a >= 0 then a / b else -((-a) / b)
  }

  function ModC(a: int, b: int): int
    requires b > 0
  {
    a - DivC(a, b) * b
  }

  /** An unsigned interval as the int that the operator takes. */
  function AsInt(interval: nat): int {
    var low := interval % 0x1_0000_0000;
    if low < 0x8000_0000 then low else low - 0x1_0000_0000
  }

  /** t + ms */
  function Plus(t: TimeSpec, ms: int): TimeSpec {
    var sum := TimeSpec(t.sec + DivC(ms, 1000), t.nsec + ModC(ms, 1000) * NS_PER_MS);
    if sum.nsec >= NS_PER_SEC then TimeSpec(sum.sec + 1, sum.nsec - NS_PER_SEC) else sum
  }

  /** t1 - t2 in milliseconds */
  function Minus(t1: TimeSpec, t2: TimeSpec): int {
    DivC(t1.nsec - t2.nsec, NS_PER_MS) + (t1.sec - t2.sec) * 1000
  }

  /** t1 < t2 */
  predicate Before(t1: TimeSpec, t2: TimeSpec) {
    t1.sec < t2.sec || (t1.sec == t2.sec && t1.nsec < t2.nsec)
  }

  lemma {:induction false} BeforeIsOrder(t1: TimeSpec, t2: TimeSpec)
    requires t1.Normal() && t2.Normal()
    ensures Before(t1, t2) <==> t1.Nanos() < t2.Nanos()
  {
    if t1.sec < t2.sec {
      assert (t1.sec + 1) * NS_PER_SEC <= t2.sec * NS_PER_SEC;
    } else if t1.sec > t2.sec {
      assert (t2.sec + 1) * NS_PER_SEC <= t1.sec * NS_PER_SEC;
    }
  }

  lemma {:induction false} PlusNanos(t: TimeSpec, ms: int)
    ensures Plus(t, ms).Nanos() == t.Nanos() + ms * NS_PER_MS
  {
    var q := DivC(ms, 1000);
    assert ms == q * 1000 + ModC(ms, 1000);
  }

  /** The sum of a time and an interval is exact and normalised exactly for the intervals
      below 2^31; from there on they are taken for negative ones. */
  lemma {:induction false} PlusIsExact(t: TimeSpec, interval: nat)
    requires t.Normal() && interval < 0x1_0000_0000
    ensures var sum := Plus(t, AsInt(interval));
      sum.Normal() && sum.Nanos() == t.Nanos() + interval * NS_PER_MS <==> interval < 0x8000_0000
  {
    PlusNanos(t, AsInt(interval));
  }

  /** The difference is less than a millisecond off, to either side. */
  lemma {:induction false} MinusIsNear(t1: TimeSpec, t2: TimeSpec)
    requires t1.Normal() && t2.Normal()
    ensures -NS_PER_MS < Minus(t1, t2) * NS_PER_MS - (t1.Nanos() - t2.Nanos()) < NS_PER_MS
  {
    var d := t1.nsec - t2.nsec;
    assert -NS_PER_MS < DivC(d, NS_PER_MS) * NS_PER_MS - d < NS_PER_MS;
  }

  // ------------------------------------------------------------------- timers

  type TimerId = nat

  type Callback = nat

  /** `stamp` grows with every setting of a timer: kept for the proofs. */
  datatype Timer = Timer(id: TimerId, due: TimeSpec, cb: Callback, stamp: nat)

  /** a comes before b in the list. */
  predicate Precedes(a: Timer, b: Timer) {
    Before(a.due, b.due) || (a.due == b.due && a.stamp < b.stamp)
  }

  /** Sorted by due time, first come first among equals. */
  predicate Ordered(list: seq<Timer>) {
    forall i, j :: 0 <= i < j < |list| ==> Precedes(list[i], list[j])
  }

  function Insert(list: seq<Timer>, t: Timer): seq<Timer> {
    if list == [] || Before(t.due, list[0].due) then [t] + list else [list[0]] + Insert(list[1..], t)
  }

  function IndexOf(list: seq<Timer>, id: TimerId): (i: nat)
    ensures i <= |list| && (i < |list| ==> list[i].id == id)
    ensures forall k :: 0 <= k < i ==> list[k].id != id
  {
    if list == [] || list[0].id == id then 0 else 1 + IndexOf(list[1..], id)
  }

  function WithoutCallback(list: seq<Timer>, cb: Callback): seq<Timer> {
    if list == [] then []
    else if list[0].cb == cb then WithoutCallback(list[1..], cb)
    else [list[0]] + WithoutCallback(list[1..], cb)
  }

  /** What callbacks do. The clock may fail. */
  datatype Op =
    | Add(clock: Option<TimeSpec>, interval: nat, cb: Callback)
    | Defer(id: TimerId, clock: Option<TimeSpec>, interval: nat)
    | DeleteTimer(id: TimerId)
    | DeleteCallback(cb: Callback)

  datatype Timers = Timers(list: seq<Timer>, next: nat) {
    predicate Valid() {
      && Ordered(list)
      && (forall i :: 0 <= i < |list| ==> list[i].stamp < next && list[i].id < next)
      && (forall i, j :: 0 <= i < j < |list| ==> list[i].id != list[j].id)
    }

    function Apply(op: Op): Timers {
      match op
      case Add(clock, interval, cb) =>
        if clock == None then this
        else Timers(Insert(list, Timer(next, Plus(clock.value, AsInt(interval)), cb, next)), next + 1)
      case Defer(id, clock, interval) =>
        var i := IndexOf(list, id);
        if i == |list| || clock == None then this
        else
          var t := list[i].(due := Plus(clock.value, AsInt(interval)), stamp := next);
          Timers(list[..i] + Insert(list[i + 1..], t), next + 1)
      case DeleteTimer(id) =>
        var i := IndexOf(list, id);
        if i == |list| then this else this.(list := list[..i] + list[i + 1..])
      case DeleteCallback(cb) => this.(list := WithoutCallback(list, cb))
    }

    function ApplyAll(ops: seq<Op>): Timers
      decreases ops
    {
      if ops == [] then this else Apply(ops[0]).ApplyAll(ops[1..])
    }
  }

  lemma {:induction false} InsertAt(list: seq<Timer>, t: Timer) returns (k: nat)
    ensures k <= |list| && Insert(list, t) == list[..k] + [t] + list[k..]
    ensures forall i :: 0 <= i < k ==> !Before(t.due, list[i].due)
    ensures k < |list| ==> Before(t.due, list[k].due)
  {
    if list == [] || Before(t.due, list[0].due) {
      k := 0;
    } else {
      k := InsertAt(list[1..], t);
      assert list[1..][..k] == list[1..k + 1] && list[1..][k..] == list[k + 1..];
      k := k + 1;
    }
  }

  /** Inserting a timer that is set last keeps the order. */
  lemma {:induction false} InsertOrdered(list: seq<Timer>, t: Timer)
    requires Ordered(list) && forall i :: 0 <= i < |list| ==> list[i].stamp < t.stamp
    ensures Ordered(Insert(list, t))
  {
    var k := InsertAt(list, t);
    var after := list[..k] + [t] + list[k..];
    forall i, j | 0 <= i < j < |after| ensures Precedes(after[i], after[j]) {
      var a := if i < k then list[i] else if i == k then t else list[i - 1];
      var b := if j < k then list[j] else if j == k then t else list[j - 1];
      assert after[i] == a && after[j] == b;
      if i == k {
        assert Before(t.due, list[k].due) && (k < j - 1 ==> Precedes(list[k], list[j - 1]));
      }
    }
  }

  /** Giving a timer another due time keeps the order exactly if its predecessor in the
      list, if there is one, is not due later; so deferring a timer always does. */
  lemma {:induction false} DeferOrdered(list: seq<Timer>, i: nat, t: Timer)
    requires Ordered(list) && i < |list| && forall k :: 0 <= k < |list| ==> list[k].stamp < t.stamp
    ensures Ordered(list[..i] + Insert(list[i + 1..], t)) <==> i == 0 || !Before(t.due, list[i - 1].due)
    ensures !Before(t.due, list[i].due) ==> i == 0 || !Before(t.due, list[i - 1].due)
  {
    var rest := list[i + 1..];
    InsertOrdered(rest, t);
    var k := InsertAt(rest, t);
    var tail := rest[..k] + [t] + rest[k..];
    var after := list[..i] + tail;
    if i > 0 {
      assert Precedes(list[i - 1], list[i]);
      if !Before(t.due, list[i - 1].due) {
        forall a, b | 0 <= a < b < |after| ensures Precedes(after[a], after[b]) {
          PrecedesInDeferred(list, i, t, k, a, b);
        }
      } else {
        assert after[i - 1] == list[i - 1] && after[i + k] == t;
        assert !Precedes(after[i - 1], after[i + k]);
      }
    } else {
      assert after == tail;
    }
  }

  lemma {:induction false} PrecedesInDeferred(list: seq<Timer>, i: nat, t: Timer, k: nat, a: nat, b: nat)
    requires Ordered(list) && 0 < i < |list| && k <= |list| - i - 1
    requires forall d :: 0 <= d < |list| ==> list[d].stamp < t.stamp
    requires !Before(t.due, list[i - 1].due) && Ordered(list[i + 1..][..k] + [t] + list[i + 1..][k..])
    requires a < b < |list|
    ensures var after := list[..i] + (list[i + 1..][..k] + [t] + list[i + 1..][k..]); Precedes(after[a], after[b])
  {
    var rest := list[i + 1..];
    var tail := rest[..k] + [t] + rest[k..];
    var after := list[..i] + tail;
    if a >= i {
      assert after[a] == tail[a - i] && after[b] == tail[b - i];
    } else if b == i + k {
      assert after[b] == t && after[a] == list[a];
      assert a < i - 1 ==> Precedes(list[a], list[i - 1]);
    } else {
      assert after[a] == list[a];
      var d := if b < i then b else if b < i + k then b + 1 else b;
      assert after[b] == list[d];
    }
  }

  // -------------------------------------------------------------- what is kept

  lemma {:induction false} InsertMembers(list: seq<Timer>, t: Timer, next: nat)
    requires forall i :: 0 <= i < |list| ==> list[i].stamp < next && list[i].id < next
    requires forall i, j :: 0 <= i < j < |list| ==> list[i].id != list[j].id
    requires t.stamp < next && t.id < next && forall i :: 0 <= i < |list| ==> list[i].id != t.id
    ensures var after := Insert(list, t);
      && (forall i :: 0 <= i < |after| ==> after[i].stamp < next && after[i].id < next)
      && (forall i, j :: 0 <= i < j < |after| ==> after[i].id != after[j].id)
      && (forall i :: 0 <= i < |after| ==> after[i] == t || after[i] in list)
  {
    var k := InsertAt(list, t);
    var after := list[..k] + [t] + list[k..];
    assert forall i :: 0 <= i < |after| ==>
      after[i] == if i < k then list[i] else if i == k then t else list[i - 1];
  }

  lemma {:induction false} DeleteAtKeeps(s: Timers, i: nat)
    requires s.Valid() && i < |s.list|
    ensures s.(list := s.list[..i] + s.list[i + 1..]).Valid()
  {
    var after := s.list[..i] + s.list[i + 1..];
    assert forall d :: 0 <= d < |after| ==> after[d] == s.list[if d < i then d else d + 1];
  }

  lemma {:induction false} WithoutCallbackSubset(list: seq<Timer>, cb: Callback, i: nat)
    requires i < |WithoutCallback(list, cb)|
    ensures exists d :: 0 <= d < |list| && WithoutCallback(list, cb)[i] == list[d]
  {
    var rest := WithoutCallback(list[1..], cb);
    if list[0].cb == cb || i > 0 {
      var at := if list[0].cb == cb then i else i - 1;
      WithoutCallbackSubset(list[1..], cb, at);
      assert WithoutCallback(list, cb)[i] == rest[at];
      var d :| 0 <= d < |list[1..]| && rest[at] == list[1..][d];
      assert list[d + 1] == list[1..][d];
    } else {
      assert WithoutCallback(list, cb)[0] == list[0];
    }
  }

  lemma {:induction false} WithoutCallbackKeeps(s: Timers, cb: Callback)
    requires s.Valid()
    ensures s.(list := WithoutCallback(s.list, cb)).Valid()
    decreases s.list
  {
    if s.list != [] {
      var tail := s.(list := s.list[1..]);
      assert forall i :: 0 <= i < |tail.list| ==> tail.list[i] == s.list[i + 1];
      WithoutCallbackKeeps(tail, cb);
      var rest := WithoutCallback(tail.list, cb);
      if s.list[0].cb != cb {
        var after := [s.list[0]] + rest;
        forall j | 0 < j < |after| ensures Precedes(s.list[0], after[j]) && s.list[0].id != after[j].id {
          WithoutCallbackSubset(tail.list, cb, j - 1);
        }
      }
    }
  }

  /** A deferral is proper if the new due time is not before the old one. */
  predicate Proper(s: Timers, op: Op) {
    op.Defer? && op.clock.Some? && IndexOf(s.list, op.id) < |s.list| ==>
      !Before(Plus(op.clock.value, AsInt(op.interval)), s.list[IndexOf(s.list, op.id)].due)
  }

  lemma {:induction false} DeferKeeps(s: Timers, i: nat, due: TimeSpec)
    requires s.Valid() && i < |s.list| && !Before(due, s.list[i].due)
    ensures var t := s.list[i].(due := due, stamp := s.next);
      Timers(s.list[..i] + Insert(s.list[i + 1..], t), s.next + 1).Valid()
  {
    var t := s.list[i].(due := due, stamp := s.next);
    DeferOrdered(s.list, i, t);
    InsertMembers(s.list[i + 1..], t, s.next + 1);
    var rest := Insert(s.list[i + 1..], t);
    var after := s.list[..i] + rest;
    forall a, b | 0 <= a < b < |after| ensures after[a].id != after[b].id {
      if a < i <= b {
        assert rest[b - i] == t || rest[b - i] in s.list[i + 1..];
      }
    }
  }

  lemma {:induction false} AddKeeps(s: Timers, due: TimeSpec, cb: Callback)
    requires s.Valid()
    ensures Timers(Insert(s.list, Timer(s.next, due, cb, s.next)), s.next + 1).Valid()
  {
    var t := Timer(s.next, due, cb, s.next);
    InsertOrdered(s.list, t);
    InsertMembers(s.list, t, s.next + 1);
    hide Insert, Precedes, Ordered;
  }

  lemma {:induction false} ApplyKeeps(s: Timers, op: Op)
    requires s.Valid() && Proper(s, op)
    ensures s.Apply(op).Valid()
  {
    hide Timers.Valid, Plus, AsInt, Insert, Before, WithoutCallback;
    match op {
      case Add(clock, interval, cb) =>
        if clock.Some? {
          AddKeeps(s, Plus(clock.value, AsInt(interval)), cb);
        }
      case Defer(id, clock, interval) =>
        var i := IndexOf(s.list, id);
        if i < |s.list| && clock.Some? {
          DeferKeeps(s, i, Plus(clock.value, AsInt(interval)));
        }
      case DeleteTimer(id) =>
        if IndexOf(s.list, id) < |s.list| {
          DeleteAtKeeps(s, IndexOf(s.list, id));
        }
      case DeleteCallback(cb) => WithoutCallbackKeeps(s, cb);
    }
  }

  /** The list has one timer more. */
  lemma {:induction false} InsertAddsOne(list: seq<Timer>, t: Timer)
    ensures multiset(Insert(list, t)) == multiset(list) + multiset{t}
  {
    var k := InsertAt(list, t);
    assert list == list[..k] + list[k..];
  }

  /** A timer that is added is in the list, once, with its callback and due when the
      interval is over, and the others are as they were. */
  lemma {:induction false} AddLists(s: Timers, now: TimeSpec, interval: nat, cb: Callback) returns (t: Timer)
    requires now.Normal() && interval < 0x8000_0000
    ensures multiset(s.Apply(Add(Some(now), interval, cb)).list) == multiset(s.list) + multiset{t}
    ensures t.id == s.next && t.cb == cb
    ensures t.due.Normal() && t.due.Nanos() == now.Nanos() + interval * NS_PER_MS
  {
    t := Timer(s.next, Plus(now, AsInt(interval)), cb, s.next);
    PlusIsExact(now, interval);
    InsertAddsOne(s.list, t);
  }

  /** A timer that is deferred keeps its callback, and is due when the new interval is over
      instead. */
  lemma {:induction false} DeferLists(s: Timers, id: TimerId, now: TimeSpec, interval: nat) returns (was: Timer, t: Timer)
    requires now.Normal() && interval < 0x8000_0000 && exists k :: 0 <= k < |s.list| && s.list[k].id == id
    ensures was in s.list && was.id == t.id == id && t.cb == was.cb
    ensures multiset(s.Apply(Defer(id, Some(now), interval)).list) + multiset{was} == multiset(s.list) + multiset{t}
    ensures t.due.Normal() && t.due.Nanos() == now.Nanos() + interval * NS_PER_MS
  {
    var i := IndexOf(s.list, id);
    was := s.list[i];
    t := was.(due := Plus(now, AsInt(interval)), stamp := s.next);
    PlusIsExact(now, interval);
    InsertAddsOne(s.list[i + 1..], t);
    assert s.list == s.list[..i] + [was] + s.list[i + 1..];
  }

  // ----------------------------------------------------------- running the list

  /** The timers that are due. */
  function Due(list: seq<Timer>, now: TimeSpec): seq<Timer> {
    if list == [] then []
    else if Before(now, list[0].due) then Due(list[1..], now)
    else [list[0]] + Due(list[1..], now)
  }

  /** An op that comes after `now` and sets timers for a positive time, below 2^31 ms. */
  predicate Later(op: Op, now: TimeSpec) {
    (op.Add? || op.Defer?) && op.clock.Some? ==>
      op.clock.value.Normal() && !Before(op.clock.value, now) && 0 < op.interval < 0x8000_0000
  }

  /** An op that takes a timer away, or puts it off. */
  predicate TakesAway(op: Op, t: Timer) {
    match op
    case Add(_, _, _) => false
    case Defer(id, clock, _) => id == t.id && clock.Some?
    case DeleteTimer(id) => id == t.id
    case DeleteCallback(cb) => cb == t.cb
  }

  predicate TakenAway(ops: seq<Op>, t: Timer) {
    exists i :: 0 <= i < |ops| && TakesAway(ops[i], t)
  }

  function NotTaken(list: seq<Timer>, op: Op): seq<Timer> {
    if list == [] then []
    else if TakesAway(op, list[0]) then NotTaken(list[1..], op)
    else [list[0]] + NotTaken(list[1..], op)
  }

  /** A timer that a callback sets is due in the same run exactly if it is set for no
      time at all and the clock has not moved: such a run may not end. */
  lemma {:induction false} DueInSameRun(clock: TimeSpec, interval: nat, now: TimeSpec)
    requires now.Normal() && clock.Normal() && !Before(clock, now) && interval < 0x8000_0000
    ensures !Before(now, Plus(clock, AsInt(interval))) <==> interval == 0 && clock == now
  {
    PlusIsExact(clock, interval);
    BeforeIsOrder(clock, now);
    BeforeIsOrder(now, Plus(clock, AsInt(interval)));
  }

  lemma {:induction false} LaterIsNotDue(clock: TimeSpec, interval: nat, now: TimeSpec)
    requires now.Normal() && clock.Normal() && !Before(clock, now) && 0 < interval < 0x8000_0000
    ensures Before(now, Plus(clock, AsInt(interval)))
  {
    DueInSameRun(clock, interval, now);
  }

  lemma {:induction false} DueConcat(a: seq<Timer>, b: seq<Timer>, now: TimeSpec)
    ensures Due(a + b, now) == Due(a, now) + Due(b, now)
  {
    if a == [] {
      assert a + b == b;
    } else {
      assert (a + b)[1..] == a[1..] + b;
      DueConcat(a[1..], b, now);
    }
  }

  lemma {:induction false} DueOfInsert(list: seq<Timer>, t: Timer, now: TimeSpec)
    requires Before(now, t.due)
    ensures Due(Insert(list, t), now) == Due(list, now)
  {
    var k := InsertAt(list, t);
    DueConcat(list[..k] + [t], list[k..], now);
    DueConcat(list[..k], [t], now);
    DueConcat(list[..k], list[k..], now);
    assert list[..k] + list[k..] == list && [t][1..] == [];
  }

  lemma {:induction false} NotTakenConcat(a: seq<Timer>, b: seq<Timer>, op: Op)
    ensures NotTaken(a + b, op) == NotTaken(a, op) + NotTaken(b, op)
  {
    if a == [] {
      assert a + b == b;
    } else {
      assert (a + b)[1..] == a[1..] + b;
      NotTakenConcat(a[1..], b, op);
    }
  }

  lemma {:induction false} NothingTaken(list: seq<Timer>, op: Op)
    requires forall i :: 0 <= i < |list| ==> !TakesAway(op, list[i])
    ensures NotTaken(list, op) == list
  {
    if list != [] {
      assert forall i :: 0 <= i < |list[1..]| ==> list[1..][i] == list[i + 1];
      NothingTaken(list[1..], op);
    }
  }

  lemma {:induction false} DueMember(list: seq<Timer>, now: TimeSpec, i: nat)
    requires i < |Due(list, now)|
    ensures exists d :: 0 <= d < |list| && Due(list, now)[i] == list[d]
    ensures !Before(now, Due(list, now)[i].due)
  {
    var rest := Due(list[1..], now);
    if Before(now, list[0].due) || i > 0 {
      var at := if Before(now, list[0].due) then i else i - 1;
      DueMember(list[1..], now, at);
      assert Due(list, now)[i] == rest[at];
      var d :| 0 <= d < |list[1..]| && rest[at] == list[1..][d];
      assert list[d + 1] == list[1..][d];
    } else {
      assert Due(list, now)[0] == list[0];
    }
  }

  /** The due timers around one that is taken out of the list. */
  lemma {:induction false} DueWithout(s: Timers, i: nat, now: TimeSpec, op: Op)
    requires s.Valid() && i < |s.list|
    requires forall d :: 0 <= d < |s.list| ==> (TakesAway(op, s.list[d]) <==> d == i)
    ensures Due(s.list[..i] + s.list[i + 1..], now) == NotTaken(Due(s.list, now), op)
  {
    var a, b := s.list[..i], s.list[i + 1..];
    assert s.list == a + ([s.list[i]] + b);
    DueConcat(a, b, now);
    DueConcat(a, [s.list[i]] + b, now);
    DueConcat([s.list[i]], b, now);
    assert [s.list[i]][1..] == [];
    NotTakenConcat(Due(a, now), Due([s.list[i]] + b, now), op);
    NotTakenConcat(Due([s.list[i]], now), Due(b, now), op);
    forall k | 0 <= k < |Due(a, now)| ensures !TakesAway(op, Due(a, now)[k]) {
      DueMember(a, now, k);
    }
    forall k | 0 <= k < |Due(b, now)| ensures !TakesAway(op, Due(b, now)[k]) {
      DueMember(b, now, k);
    }
    NothingTaken(Due(a, now), op);
    NothingTaken(Due(b, now), op);
  }

  lemma {:induction false} DueWithoutCallback(list: seq<Timer>, cb: Callback, now: TimeSpec)
    ensures Due(WithoutCallback(list, cb), now) == NotTaken(Due(list, now), DeleteCallback(cb))
  {
    if list != [] {
      DueWithoutCallback(list[1..], cb, now);
      if list[0].cb != cb {
        assert WithoutCallback(list, cb)[1..] == WithoutCallback(list[1..], cb);
      }
      if !Before(now, list[0].due) {
        assert Due(list, now)[1..] == Due(list[1..], now);
      }
    }
  }

  /** An op that comes later leaves exactly those due that it does not take away. */
  lemma {:induction false} ApplyDue(s: Timers, op: Op, now: TimeSpec)
    requires s.Valid() && now.Normal() && Later(op, now)
    ensures Due(s.Apply(op).list, now) == NotTaken(Due(s.list, now), op)
  {
    match op {
      case Add(clock, interval, cb) =>
        NothingTaken(Due(s.list, now), op);
        if clock.Some? {
          LaterIsNotDue(clock.value, interval, now);
          DueOfInsert(s.list, Timer(s.next, Plus(clock.value, AsInt(interval)), cb, s.next), now);
        }
      case Defer(id, clock, interval) =>
        var i := IndexOf(s.list, id);
        if i < |s.list| && clock.Some? {
          var t := s.list[i].(due := Plus(clock.value, AsInt(interval)), stamp := s.next);
          LaterIsNotDue(clock.value, interval, now);
          DueOfInsert(s.list[i + 1..], t, now);
          DueConcat(s.list[..i], Insert(s.list[i + 1..], t), now);
          DueConcat(s.list[..i], s.list[i + 1..], now);
          DueWithout(s, i, now, op);
        } else {
          AbsentTakesNothing(s, op, now);
        }
      case DeleteTimer(id) =>
        if IndexOf(s.list, id) < |s.list| {
          DueWithout(s, IndexOf(s.list, id), now, op);
        } else {
          AbsentTakesNothing(s, op, now);
        }
      case DeleteCallback(cb) => DueWithoutCallback(s.list, cb, now);
    }
  }

  lemma {:induction false} AbsentTakesNothing(s: Timers, op: Op, now: TimeSpec)
    requires forall d :: 0 <= d < |s.list| ==> !TakesAway(op, s.list[d])
    ensures NotTaken(Due(s.list, now), op) == Due(s.list, now)
  {
    forall k | 0 <= k < |Due(s.list, now)| ensures !TakesAway(op, Due(s.list, now)[k]) {
      DueMember(s.list, now, k);
    }
    NothingTaken(Due(s.list, now), op);
  }

  function NotTakenByAny(list: seq<Timer>, ops: seq<Op>): seq<Timer>
    decreases ops
  {
    if ops == [] then list else NotTakenByAny(NotTaken(list, ops[0]), ops[1..])
  }

  lemma {:induction false} NotTakenShorter(list: seq<Timer>, ops: seq<Op>)
    ensures |NotTakenByAny(list, ops)| <= |list|
    decreases ops, list
  {
    if ops != [] {
      OneNotTakenShorter(list, ops[0]);
      NotTakenShorter(NotTaken(list, ops[0]), ops[1..]);
    }
  }

  lemma {:induction false} OneNotTakenShorter(list: seq<Timer>, op: Op)
    ensures |NotTaken(list, op)| <= |list|
  {
    if list != [] {
      OneNotTakenShorter(list[1..], op);
    }
  }

  function ScriptOf(scripts: map<TimerId, seq<Op>>, id: TimerId): seq<Op> {
    if id in scripts then scripts[id] else []
  }

  /** Which of some due timers fire: each takes away what its callback takes away. */
  function Survivors(due: seq<Timer>, scripts: map<TimerId, seq<Op>>): seq<Timer>
    decreases |due|
  {
    if due == [] then []
    else
      NotTakenShorter(due[1..], ScriptOf(scripts, due[0].id));
      [due[0]] + Survivors(NotTakenByAny(due[1..], ScriptOf(scripts, due[0].id)), scripts)
  }

  /** The callback's ops come later than now and its deferrals are proper. */
  predicate OpsFit(s: Timers, ops: seq<Op>, now: TimeSpec)
    decreases ops
  {
    ops == [] || (Later(ops[0], now) && Proper(s, ops[0]) && OpsFit(s.Apply(ops[0]), ops[1..], now))
  }

  lemma {:induction false} OpsKeep(s: Timers, ops: seq<Op>, now: TimeSpec)
    requires s.Valid() && now.Normal() && OpsFit(s, ops, now)
    ensures s.ApplyAll(ops).Valid()
    ensures Due(s.ApplyAll(ops).list, now) == NotTakenByAny(Due(s.list, now), ops)
    decreases ops
  {
    if ops != [] {
      ApplyKeeps(s, ops[0]);
      ApplyDue(s, ops[0], now);
      OpsKeep(s.Apply(ops[0]), ops[1..], now);
    }
  }

  function Pop(s: Timers): Timers
    requires s.list != []
  {
    s.(list := s.list[1..])
  }

  /** Running a callback leaves fewer timers due. */
  lemma {:induction false} FiringKeeps(s: Timers, ops: seq<Op>, now: TimeSpec)
    requires s.Valid() && now.Normal() && s.list != [] && !Before(now, s.list[0].due)
    requires OpsFit(Pop(s), ops, now)
    ensures Pop(s).Valid() && Pop(s).ApplyAll(ops).Valid()
    ensures Due(s.list, now) == [s.list[0]] + Due(s.list[1..], now)
    ensures Due(Pop(s).ApplyAll(ops).list, now) == NotTakenByAny(Due(s.list, now)[1..], ops)
    ensures |Due(Pop(s).ApplyAll(ops).list, now)| < |Due(s.list, now)|
  {
    assert forall i :: 0 <= i < |s.list[1..]| ==> s.list[1..][i] == s.list[i + 1];
    OpsKeep(Pop(s), ops, now);
    NotTakenShorter(Due(s.list[1..], now), ops);
    assert Due(s.list, now)[1..] == Due(s.list[1..], now);
  }

  /** Every callback that the run comes to fits. */
  predicate RunFits(s: Timers, now: TimeSpec, scripts: map<TimerId, seq<Op>>)
    requires s.Valid() && now.Normal()
    decreases |Due(s.list, now)|
  {
    s.list == [] || Before(now, s.list[0].due) ||
    (var ops := ScriptOf(scripts, s.list[0].id);
     OpsFit(Pop(s), ops, now) && (FiringKeeps(s, ops, now); RunFits(Pop(s).ApplyAll(ops), now, scripts)))
  }

  /** The list after a run, and the timers that fired. */
  function Run(s: Timers, now: TimeSpec, scripts: map<TimerId, seq<Op>>): (Timers, seq<Timer>)
    requires s.Valid() && now.Normal() && RunFits(s, now, scripts)
    decreases |Due(s.list, now)|
  {
    if s.list == [] || Before(now, s.list[0].due) then (s, [])
    else
      var ops := ScriptOf(scripts, s.list[0].id);
      FiringKeeps(s, ops, now);
      var (last, fired) := Run(Pop(s).ApplyAll(ops), now, scripts);
      (last, [s.list[0]] + fired)
  }

  lemma {:induction false} NothingDue(list: seq<Timer>, now: TimeSpec)
    requires forall i :: 0 <= i < |list| ==> Before(now, list[i].due)
    ensures Due(list, now) == []
  {
    if list != [] {
      assert forall i :: 0 <= i < |list[1..]| ==> list[1..][i] == list[i + 1];
      NothingDue(list[1..], now);
    }
  }

  /** A run ends, fires exactly the due timers that no earlier callback deleted or put
      off, in the order of the list, and leaves none that is due. */
  lemma {:induction false} RunFires(s: Timers, now: TimeSpec, scripts: map<TimerId, seq<Op>>)
    requires s.Valid() && now.Normal() && RunFits(s, now, scripts)
    ensures var (last, fired) := Run(s, now, scripts);
      && last.Valid() && Due(last.list, now) == []
      && fired == Survivors(Due(s.list, now), scripts)
    decreases |Due(s.list, now)|
  {
    if s.list == [] || Before(now, s.list[0].due) {
      forall i | 0 <= i < |s.list| ensures Before(now, s.list[i].due) {
        assert i > 0 ==> Precedes(s.list[0], s.list[i]);
      }
      NothingDue(s.list, now);
    } else {
      var ops := ScriptOf(scripts, s.list[0].id);
      FiringKeeps(s, ops, now);
      RunFires(Pop(s).ApplyAll(ops), now, scripts);
    }
  }

  // ------------------------------------------------------------- the manager

  function Joined(fired: seq<Timer>, rest: (Timers, seq<Timer>)): (Timers, seq<Timer>) {
    (rest.0, fired + rest.1)
  }

  /** One turn of the loop. */
  lemma {:induction false} RunOne(s: Timers, now: TimeSpec, scripts: map<TimerId, seq<Op>>, fired: seq<Timer>)
    requires s.Valid() && now.Normal() && RunFits(s, now, scripts) && s.list != []
    ensures Before(now, s.list[0].due) ==> Joined(fired, Run(s, now, scripts)) == (s, fired)
    ensures !Before(now, s.list[0].due) ==>
      var after := Pop(s).ApplyAll(ScriptOf(scripts, s.list[0].id));
      && after.Valid() && RunFits(after, now, scripts)
      && |Due(after.list, now)| < |Due(s.list, now)|
      && Joined(fired, Run(s, now, scripts)) == Joined(fired + [s.list[0]], Run(after, now, scripts))
  {
    if !Before(now, s.list[0].due) {
      var ops := ScriptOf(scripts, s.list[0].id);
      FiringKeeps(s, ops, now);
      var (last, rest) := Run(Pop(s).ApplyAll(ops), now, scripts);
      assert fired + ([s.list[0]] + rest) == (fired + [s.list[0]]) + rest;
    } else {
      assert fired + [] == fired;
    }
  }

  lemma {:induction false} Gather(list: seq<Timer>, from: nat, i: nat, t: Timer)
    requires from <= i <= |list|
    ensures list[..i] + [t] + list[i..] == list[..from] + (list[from..i] + ([t] + list[i..]))
  {
  }

  lemma {:induction false} InsertSkips(list: seq<Timer>, from: nat, i: nat, t: Timer)
    requires from <= i < |list| && !Before(t.due, list[i].due)
    ensures list[from..i] + Insert(list[i..], t) == list[from..i + 1] + Insert(list[i + 1..], t)
  {
    assert list[i..][1..] == list[i + 1..] && list[from..i + 1] == list[from..i] + [list[i]];
  }

  class TimerManager {
    var timers: seq<Timer>
    var next: nat

    ghost function View(): Timers
      reads this
    {
      Timers(timers, next)
    }

    ghost predicate Valid()
      reads this
    {
      View().Valid()
    }

    constructor ()
      ensures Valid() && timers == []
    {
      timers, next := [], 0;
    }

    method InsertTimer(t: Timer, from: nat)
      requires from <= |timers|
      modifies this`timers
      ensures timers == old(timers)[..from] + Insert(old(timers)[from..], t)
    {
      var i := from;
      while i < |timers| && !Before(t.due, timers[i].due)
        invariant from <= i <= |timers| && timers == old(timers)
        invariant Insert(timers[from..], t) == timers[from..i] + Insert(timers[i..], t)
      {
        InsertSkips(timers, from, i, t);
        i := i + 1;
      }
      assert Insert(timers[i..], t) == [t] + timers[i..];
      Gather(timers, from, i, t);
      assert Insert(old(timers)[from..], t) == timers[from..i] + ([t] + timers[i..]);
      timers := timers[..i] + [t] + timers[i..];
    }

    method AddTimer(clock: Option<TimeSpec>, interval: nat, cb: Callback) returns (ret: int)
      modifies this
      ensures View() == old(View()).Apply(Add(clock, interval, cb))
      ensures ret == if clock == None then -1 else 0
    {
      if clock == None {
        return -1;
      }
      var p := Timer(next, Plus(clock.value, AsInt(interval)), cb, next);
      next := next + 1;
      InsertTimer(p, 0);
      assert old(timers)[0..] == old(timers);
      return 0;
    }

    method FindTimer(id: TimerId) returns (i: nat)
      ensures i == IndexOf(timers, id)
    {
      i := 0;
      while i < |timers| && timers[i].id != id
        invariant i <= |timers| && IndexOf(timers, id) == i + IndexOf(timers[i..], id)
      {
        assert timers[i..][1..] == timers[i + 1..];
        i := i + 1;
      }
    }

    method SetNewDueTime(id: TimerId, clock: Option<TimeSpec>, interval: nat) returns (ret: int)
      modifies this
      ensures View() == old(View()).Apply(Defer(id, clock, interval))
      ensures ret == if clock == None || IndexOf(old(timers), id) == |old(timers)| then -1 else 0
    {
      hide Timers.Valid, Proper, Plus, AsInt, Insert, IndexOf;
      var i := FindTimer(id);
      if i == |timers| || clock == None {
        return -1;
      }
      var t := timers[i].(due := Plus(clock.value, AsInt(interval)), stamp := next);
      next := next + 1;
      EraseTimer(i);
      InsertTimer(t, i);
      return 0;
    }

    method DelTimer(id: TimerId)
      modifies this
      ensures View() == old(View()).Apply(DeleteTimer(id))
    {
      hide IndexOf;
      var i := FindTimer(id);
      if i < |timers| {
        EraseTimer(i);
      }
    }

    method EraseTimer(i: nat)
      requires i < |timers|
      modifies this`timers
      ensures timers == old(timers)[..i] + old(timers)[i + 1..]
      ensures timers[..i] == old(timers)[..i] && timers[i..] == old(timers)[i + 1..]
    {
      timers := timers[..i] + timers[i + 1..];
    }

    method DelTimersOf(cb: Callback)
      modifies this
      ensures View() == old(View()).Apply(DeleteCallback(cb))
    {
      var it := 0;
      while it < |timers|
        invariant it <= |timers| && next == old(next)
        invariant timers[..it] + WithoutCallback(timers[it..], cb) == WithoutCallback(old(timers), cb)
        decreases |timers| - it
      {
        ghost var was := timers;
        assert was[it..][0] == was[it] && was[it..][1..] == was[it + 1..];
        if timers[it].cb == cb {
          timers := timers[..it] + timers[it + 1..];
          assert timers[it..] == was[it + 1..] && timers[..it] == was[..it];
        } else {
          assert timers[..it + 1] == timers[..it] + [timers[it]];
          it := it + 1;
        }
      }
      assert timers[..it] == timers;
    }

    /** The time until the next timer is due, in milliseconds; -1 without timers. */
    method NextTime(clock: Option<TimeSpec>) returns (ret: int, span: int)
      ensures timers == [] ==> ret == 0 && span == -1
      ensures timers != [] && clock == None ==> ret == -1
      ensures timers != [] && clock != None && clock.value.Normal() && timers[0].due.Normal() ==>
        ret == 0 && span >= 0 &&
        var exact := timers[0].due.Nanos() - clock.value.Nanos();
        if exact <= 0 then span == 0 else -NS_PER_MS < span * NS_PER_MS - exact < NS_PER_MS
    {
      span := -1;
      if |timers| == 0 {
        return 0, -1;
      }
      if clock == None {
        return -1, span;
      }
      if clock.value.Normal() && timers[0].due.Normal() {
        MinusIsNear(timers[0].due, clock.value);
      }
      span := Minus(timers[0].due, clock.value);
      if span < 0 {
        span := 0;
      }
      return 0, span;
    }

    /** What a client does between two runs. */
    method Change(op: Op)
      requires Valid() && Proper(View(), op)
      modifies this
      ensures Valid() && View() == old(View()).Apply(op)
    {
      ApplyKeeps(View(), op);
      hide Timers.Valid, Timers.Apply, Proper;
      RunOp(op);
    }

    method RunOp(op: Op)
      modifies this
      ensures View() == old(View()).Apply(op)
    {
      match op {
        case Add(clock, interval, cb) => var _ := AddTimer(clock, interval, cb);
        case Defer(id, clock, interval) => var _ := SetNewDueTime(id, clock, interval);
        case DeleteTimer(id) => DelTimer(id);
        case DeleteCallback(cb) => DelTimersOf(cb);
      }
    }

    method RunOps(ops: seq<Op>)
      modifies this
      ensures View() == old(View()).ApplyAll(ops)
    {
      for i := 0 to |ops|
        invariant View().ApplyAll(ops[i..]) == old(View()).ApplyAll(ops)
      {
        assert ops[i..][0] == ops[i] && ops[i..][1..] == ops[i + 1..];
        RunOp(ops[i]);
      }
    }

    method RunTimers(clock: Option<TimeSpec>, scripts: map<TimerId, seq<Op>>) returns (fired: seq<Timer>)
      requires Valid()
      requires clock != None ==> clock.value.Normal() && RunFits(View(), clock.value, scripts)
      modifies this
      ensures Valid()
      ensures clock == None ==> View() == old(View()) && fired == []
      ensures clock != None ==> (View(), fired) == Run(old(View()), clock.value, scripts)
      ensures clock != None ==> fired == Survivors(Due(old(timers), clock.value), scripts)
    {
      fired := [];
      if clock == None {
        return;
      }
      var now := clock.value;
      RunFires(View(), now, scripts);
      ghost var all := Run(View(), now, scripts);
      assert [] + all.1 == all.1;
      while |timers| > 0
        invariant Valid() && RunFits(View(), now, scripts) && Joined(fired, Run(View(), now, scripts)) == all
        decreases |Due(timers, now)|
      {
        RunOne(View(), now, scripts, fired);
        hide Run, RunFits, Due, Timers.Valid, Joined, OpsFit, Timers.ApplyAll, Survivors;
        var p := timers[0];
        if Before(now, p.due) {
          return;
        }
        timers := timers[1..];
        RunOps(ScriptOf(scripts, p.id));
        fired := fired + [p];
      }
      assert fired + [] == fired;
    }
  }
}
