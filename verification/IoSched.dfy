/** The I/O scheduler of one log: a fixed pool of buffers that move between a free
    stack, a queue, the batch being written and the client, and the channel to the
    thread that writes batches. The disk is a trace of what was written to it. */
module IoSched {
  import opened Basics

  type FileId = nat

  type BufferId = nat

  datatype DiskEvent =
    | Appended(file: FileId, bytes: seq<Byte>)
    | WrittenAt(file: FileId, offset: int, bytes: seq<Byte>)

  /** Everything appended to files, in the order of the writes. */
  function AppendedBytes(trace: seq<DiskEvent>): seq<Byte> {
    if trace == [] then []
    else
      var last := trace[|trace| - 1];
      AppendedBytes(trace[..|trace| - 1]) + (if last.Appended? then last.bytes else [])
  }

  /** A buffer, told apart by its number. A negative offset means: append. */
  datatype DataBuffer = DataBuffer(id: BufferId, buffer: seq<Byte>, dataStart: nat, dataLen: nat, dstOffset: int) {
    predicate Valid() {
      dataStart + dataLen <= |buffer|
    }

    function Payload(): (p: seq<Byte>)
      ensures Valid() ==> |p| == dataLen
    {
      if Valid() then buffer[dataStart..dataStart + dataLen] else []
    }

    predicate ToAppend() {
      dstOffset < 0
    }

    function Advance(n: nat): DataBuffer
      requires n <= dataLen
    {
      this.(dataStart := dataStart + n, dataLen := dataLen - n)
    }

    function Reset(): DataBuffer {
      this.(dataStart := 0, dataLen := 0, dstOffset := -1)
    }
  }

  // ------------------------------------------------------- when to commit

  function TotalLen(bufs: seq<DataBuffer>): nat {
    if bufs == [] then 0 else bufs[0].dataLen + TotalLen(bufs[1..])
  }

  /** The test that lets the queue go to the disk. */
  predicate EnoughToWrite(bufs: seq<DataBuffer>, threshold: nat, maxBlocks: nat) {
    !(TotalLen(bufs) < threshold && |bufs| < maxBlocks / 2)
  }

  /** An empty queue is left alone exactly when there is a threshold and there are
      at least two buffers; otherwise empty batches would be requested. */
  lemma {:induction false} NoEmptyBatch(threshold: nat, maxBlocks: nat)
    ensures !EnoughToWrite([], threshold, maxBlocks) <==> threshold > 0 && maxBlocks >= 2
  {
  }

  // --------------------------------------------- what a row of buffers means

  /** The bytes a row adds to the log: buffers for an offset add none. */
  function LogBytes(bufs: seq<DataBuffer>): seq<Byte> {
    if bufs == [] then []
    else if bufs[0].ToAppend() then bufs[0].Payload() + LogBytes(bufs[1..])
    else LogBytes(bufs[1..])
  }

  /** The buffers of a queue that go to the end of the file. */
  function Appends(bufs: seq<DataBuffer>): seq<DataBuffer> {
    if bufs == [] then []
    else if bufs[0].ToAppend() then [bufs[0]] + Appends(bufs[1..])
    else Appends(bufs[1..])
  }

  /** The buffers that go to an offset, as they come back to the free stack. */
  function Patched(bufs: seq<DataBuffer>): seq<DataBuffer> {
    if bufs == [] then []
    else if bufs[0].ToAppend() then Patched(bufs[1..])
    else [bufs[0].Reset()] + Patched(bufs[1..])
  }

  /** The writes at an offset that a queue asks for. */
  function Patches(file: FileId, bufs: seq<DataBuffer>): seq<DiskEvent> {
    if bufs == [] then []
    else if bufs[0].ToAppend() then Patches(file, bufs[1..])
    else [WrittenAt(file, bufs[0].dstOffset, bufs[0].Payload())] + Patches(file, bufs[1..])
  }

  /** A write at an offset, whatever the file. */
  datatype Patch = Patch(offset: int, bytes: seq<Byte>)

  /** The writes at an offset that a queue still asks for, in its order. */
  function Asks(bufs: seq<DataBuffer>): seq<Patch> {
    if bufs == [] then []
    else if bufs[0].ToAppend() then Asks(bufs[1..])
    else [Patch(bufs[0].dstOffset, bufs[0].Payload())] + Asks(bufs[1..])
  }

  /** The writes at an offset that were made, in their order. */
  function Made(trace: seq<DiskEvent>): seq<Patch> {
    if trace == [] then []
    else
      var last := trace[|trace| - 1];
      Made(trace[..|trace| - 1]) + (if last.WrittenAt? then [Patch(last.offset, last.bytes)] else [])
  }

  function Ids(bufs: seq<DataBuffer>): multiset<BufferId> {
    if bufs == [] then multiset{} else multiset{bufs[0].id} + Ids(bufs[1..])
  }

  predicate AllAppend(bufs: seq<DataBuffer>) {
    forall i :: 0 <= i < |bufs| ==> bufs[i].ToAppend()
  }

  predicate AllValid(bufs: seq<DataBuffer>) {
    forall i :: 0 <= i < |bufs| ==> bufs[i].Valid()
  }

  predicate AllClean(bufs: seq<DataBuffer>) {
    forall i :: 0 <= i < |bufs| ==> bufs[i].ToAppend() && bufs[i].dataStart == bufs[i].dataLen == 0
  }

  lemma {:induction false} IdsConcat(a: seq<DataBuffer>, b: seq<DataBuffer>)
    ensures Ids(a + b) == Ids(a) + Ids(b)
  {
    if a == [] {
      assert a + b == b;
    } else {
      assert (a + b)[1..] == a[1..] + b;
      IdsConcat(a[1..], b);
    }
  }

  lemma {:induction false} IdsLen(a: seq<DataBuffer>)
    ensures |Ids(a)| == |a|
  {
    if a != [] {
      IdsLen(a[1..]);
    }
  }

  lemma {:induction false} LogBytesConcat(a: seq<DataBuffer>, b: seq<DataBuffer>)
    ensures LogBytes(a + b) == LogBytes(a) + LogBytes(b)
  {
    if a == [] {
      assert a + b == b;
    } else {
      assert (a + b)[1..] == a[1..] + b;
      LogBytesConcat(a[1..], b);
    }
  }

  lemma {:induction false} AppendsKeepBytes(bufs: seq<DataBuffer>)
    ensures LogBytes(Appends(bufs)) == LogBytes(bufs)
  {
    if bufs != [] {
      AppendsKeepBytes(bufs[1..]);
      if bufs[0].ToAppend() {
        assert Appends(bufs)[1..] == Appends(bufs[1..]);
      }
    }
  }

  lemma {:induction false} TotalLenIsBytes(bufs: seq<DataBuffer>)
    requires AllAppend(bufs) && AllValid(bufs)
    ensures TotalLen(bufs) == |LogBytes(bufs)|
  {
    if bufs != [] {
      TotalLenIsBytes(bufs[1..]);
    }
  }

  lemma {:induction false} AppendsKeepBuffers(bufs: seq<DataBuffer>)
    ensures Ids(Appends(bufs)) + Ids(Patched(bufs)) == Ids(bufs)
  {
    if bufs != [] {
      AppendsKeepBuffers(bufs[1..]);
      if bufs[0].ToAppend() {
        assert Appends(bufs)[1..] == Appends(bufs[1..]);
      } else {
        assert Patched(bufs)[1..] == Patched(bufs[1..]);
      }
    }
  }

  lemma {:induction false} AppendsAreAppends(bufs: seq<DataBuffer>)
    ensures AllAppend(Appends(bufs)) && AllClean(Patched(bufs))
    ensures AllValid(bufs) ==> AllValid(Appends(bufs))
    ensures |Appends(bufs)| <= |bufs|
  {
    if bufs != [] {
      AppendsAreAppends(bufs[1..]);
    }
  }

  /** Writes at an offset never disturb what is appended. */
  lemma {:induction false} PatchesAppendNothing(file: FileId, trace: seq<DiskEvent>, bufs: seq<DataBuffer>)
    ensures AppendedBytes(trace + Patches(file, bufs)) == AppendedBytes(trace)
    decreases bufs
  {
    if bufs == [] {
      assert trace + Patches(file, bufs) == trace;
    } else if bufs[0].ToAppend() {
      assert Patches(file, bufs) == Patches(file, bufs[1..]);
      PatchesAppendNothing(file, trace, bufs[1..]);
    } else {
      var e := WrittenAt(file, bufs[0].dstOffset, bufs[0].Payload());
      assert Patches(file, bufs) == [e] + Patches(file, bufs[1..]);
      Regroup(trace, e, Patches(file, bufs[1..]));
      PatchesAppendNothing(file, trace + [e], bufs[1..]);
      assert (trace + [e])[..|trace|] == trace;
    }
  }

  lemma {:induction false} AsksConcat(a: seq<DataBuffer>, b: seq<DataBuffer>)
    ensures Asks(a + b) == Asks(a) + Asks(b)
  {
    if a == [] {
      assert a + b == b;
    } else {
      assert (a + b)[1..] == a[1..] + b;
      AsksConcat(a[1..], b);
    }
  }

  lemma {:induction false} AppendsAskNothing(bufs: seq<DataBuffer>)
    ensures AllAppend(bufs) ==> Asks(bufs) == []
  {
    if bufs != [] && AllAppend(bufs) {
      AppendsAskNothing(bufs[1..]);
    }
  }

  /** What a queue asks for is what is made of it. */
  lemma {:induction false} PatchesAreMade(file: FileId, trace: seq<DiskEvent>, bufs: seq<DataBuffer>)
    ensures Made(trace + Patches(file, bufs)) == Made(trace) + Asks(bufs)
    decreases bufs
  {
    if bufs == [] {
      assert trace + Patches(file, bufs) == trace;
    } else if bufs[0].ToAppend() {
      PatchesAreMade(file, trace, bufs[1..]);
    } else {
      var e := WrittenAt(file, bufs[0].dstOffset, bufs[0].Payload());
      assert Patches(file, bufs) == [e] + Patches(file, bufs[1..]);
      Regroup(trace, e, Patches(file, bufs[1..]));
      PatchesAreMade(file, trace + [e], bufs[1..]);
      assert (trace + [e])[..|trace|] == trace;
    }
  }

  lemma {:induction false} CleanConcat(a: seq<DataBuffer>, b: seq<DataBuffer>)
    requires AllClean(a) && AllClean(b)
    ensures AllClean(a + b)
  {
  }

  /** Taking the buffers for an offset out of a queue loses no buffer and no byte. */
  lemma {:induction false} SortedOut(bufs: seq<DataBuffer>, free: seq<DataBuffer>, file: FileId, trace: seq<DiskEvent>)
    requires AllClean(free) && AllValid(bufs)
    ensures AllClean(free + Patched(bufs)) && AllValid(Appends(bufs)) && AllAppend(Appends(bufs))
    ensures Ids(free + Patched(bufs)) + Ids(Appends(bufs)) == Ids(free) + Ids(bufs)
    ensures LogBytes(Appends(bufs)) == LogBytes(bufs)
    ensures AppendedBytes(trace + Patches(file, bufs)) == AppendedBytes(trace)
    ensures Made(trace + Patches(file, bufs)) + Asks(Appends(bufs)) == Made(trace) + Asks(bufs)
  {
    AppendsKeepBytes(bufs);
    PatchesAreMade(file, trace, bufs);
    AppendsAskNothing(Appends(bufs));
    AppendsKeepBuffers(bufs);
    AppendsAreAppends(bufs);
    PatchesAppendNothing(file, trace, bufs);
    IdsConcat(free, Patched(bufs));
    CleanConcat(free, Patched(bufs));
  }

  /** What is left of a batch of which n bytes were written: finished buffers are
      gone, the one where writing stopped keeps the rest of its payload. */
  function Unfinished(bufs: seq<DataBuffer>, n: nat): seq<DataBuffer> {
    if bufs == [] then []
    else if bufs[0].dataLen <= n then Unfinished(bufs[1..], n - bufs[0].dataLen)
    else [bufs[0].Advance(n)] + bufs[1..]
  }

  /** The finished buffers, as they come back to the free stack. */
  function Finished(bufs: seq<DataBuffer>, n: nat): seq<DataBuffer> {
    if bufs == [] then []
    else if bufs[0].dataLen <= n then [bufs[0].Reset()] + Finished(bufs[1..], n - bufs[0].dataLen)
    else []
  }

  lemma {:induction false} DropLong(p: seq<Byte>, q: seq<Byte>, n: nat)
    requires |p| <= n <= |p| + |q|
    ensures (p + q)[n..] == q[n - |p|..]
  {
  }

  lemma {:induction false} DropShort(p: seq<Byte>, q: seq<Byte>, n: nat)
    requires n <= |p|
    ensures (p + q)[n..] == p[n..] + q
  {
  }

  /** The buffers that go back to the queue carry exactly the unwritten bytes. */
  lemma {:induction false} UnfinishedBytes(bufs: seq<DataBuffer>, n: nat)
    requires AllAppend(bufs) && AllValid(bufs) && n <= |LogBytes(bufs)|
    ensures LogBytes(Unfinished(bufs, n)) == LogBytes(bufs)[n..]
  {
    if bufs != [] {
      var b, rest := bufs[0], bufs[1..];
      assert LogBytes(bufs) == b.Payload() + LogBytes(rest) && |b.Payload()| == b.dataLen;
      if b.dataLen <= n {
        assert Unfinished(bufs, n) == Unfinished(rest, n - b.dataLen);
        UnfinishedBytes(rest, n - b.dataLen);
        DropLong(b.Payload(), LogBytes(rest), n);
      } else {
        var left := [b.Advance(n)] + rest;
        assert Unfinished(bufs, n) == left && left[1..] == rest;
        assert LogBytes(left) == b.Advance(n).Payload() + LogBytes(rest);
        assert b.Advance(n).Payload() == b.Payload()[n..];
        DropShort(b.Payload(), LogBytes(rest), n);
      }
    }
  }

  /** No buffer of a batch is lost. */
  lemma {:induction false} UnfinishedBuffers(bufs: seq<DataBuffer>, n: nat)
    ensures Ids(Finished(bufs, n)) + Ids(Unfinished(bufs, n)) == Ids(bufs)
  {
    if bufs != [] {
      var b, rest := bufs[0], bufs[1..];
      if b.dataLen <= n {
        UnfinishedBuffers(rest, n - b.dataLen);
        assert Finished(bufs, n)[1..] == Finished(rest, n - b.dataLen);
      } else {
        assert Unfinished(bufs, n)[1..] == rest;
      }
    }
  }

  lemma {:induction false} UnfinishedShape(bufs: seq<DataBuffer>, n: nat)
    requires AllAppend(bufs) && AllValid(bufs)
    ensures AllValid(Unfinished(bufs, n)) && AllAppend(Unfinished(bufs, n))
  {
    if bufs != [] && bufs[0].dataLen <= n {
      UnfinishedShape(bufs[1..], n - bufs[0].dataLen);
    }
  }

  lemma {:induction false} FinishedAreClean(bufs: seq<DataBuffer>, n: nat)
    ensures AllClean(Finished(bufs, n))
  {
    if bufs != [] && bufs[0].dataLen <= n {
      FinishedAreClean(bufs[1..], n - bufs[0].dataLen);
    }
  }

  /** All of a batch, reset. */
  function ResetAll(bufs: seq<DataBuffer>): seq<DataBuffer> {
    if bufs == [] then [] else [bufs[0].Reset()] + ResetAll(bufs[1..])
  }

  lemma {:induction false} ResetKeepsIds(bufs: seq<DataBuffer>)
    ensures Ids(ResetAll(bufs)) == Ids(bufs) && AllClean(ResetAll(bufs))
  {
    if bufs != [] {
      ResetKeepsIds(bufs[1..]);
      assert ResetAll(bufs)[1..] == ResetAll(bufs[1..]);
    }
  }

  // ----------------------------------------------------- channel and thread

  class Disk {
    var trace: seq<DiskEvent>

    constructor ()
      ensures trace == []
    {
      trace := [];
    }
  }

  class IoRequest {
    var file: Option<FileId>
    var dataList: seq<DataBuffer>
    var written: nat
    var errCode: int

    constructor ()
      ensures file == None && dataList == [] && written == 0 && errCode == 0
    {
      file, dataList, written, errCode := None, [], 0, 0;
    }
  }

  datatype IoState = Idle | Executing

  /** Writing ends with a number of bytes, at most all of them, or an error code. */
  function WrittenOf(outcome: int, total: nat): (n: nat)
    ensures n <= total
  {
    if outcome < 0 then 0 else if outcome > total then total else outcome
  }

  /** The channel. `responded` says that the thread has written the batch and its
      one-byte answer waits in the socket. */
  class IoChannel {
    var state: IoState
    var curReq: IoRequest?
    var responded: bool

    constructor ()
      ensures state.Idle? && curReq == null && !responded
    {
      state, curReq, responded := Idle, null, false;
    }

    /** `sent` says whether the byte that wakes the thread goes out. */
    method Request(req: IoRequest, sent: bool) returns (ret: int)
      modifies this
      ensures old(state).Executing? ==> ret == -1 && unchanged(this)
      ensures old(state).Idle? && sent ==> ret == 0 && state.Executing? && curReq == req
      ensures old(state).Idle? && !sent ==> ret == -1 && state.Idle? && curReq == null
      ensures responded == old(responded)
    {
      if state == Executing {
        return -1;
      }
      curReq := req;
      if !sent {
        curReq := null;
        return -1;
      }
      state := Executing;
      return 0;
    }

    /** The I/O thread takes the request up. */
    method DoIo(disk: Disk, outcome: int)
      requires state.Executing? && curReq != null && !responded && curReq.file.Some?
      requires AllAppend(curReq.dataList)
      modifies this`responded, curReq`written, curReq`errCode, disk
      ensures responded
      ensures var all := LogBytes(curReq.dataList);
        && curReq.written == WrittenOf(outcome, |all|)
        && disk.trace == old(disk.trace) + [Appended(curReq.file.value, all[..curReq.written])]
      ensures curReq.errCode == if outcome >= 0 then 0 else outcome
    {
      var vec: seq<Byte> := [];
      var bufs := curReq.dataList;
      for i := 0 to |bufs|
        invariant vec == LogBytes(bufs[..i]) && unchanged(disk)
      {
        assert bufs[..i + 1] == bufs[..i] + [bufs[i]];
        LogBytesConcat(bufs[..i], [bufs[i]]);
        vec := vec + bufs[i].Payload();
      }
      assert bufs[..|bufs|] == bufs;
      curReq.written := WrittenOf(outcome, |vec|);
      curReq.errCode := if outcome >= 0 then 0 else outcome;
      disk.trace := disk.trace + [Appended(curReq.file.value, vec[..curReq.written])];
      responded := true;
    }

    /** Blocks until the answer is there; the result callback is not called. */
    method WaitIo(disk: Disk, outcome: int)
      requires state.Executing? && curReq != null && curReq.file.Some? && AllAppend(curReq.dataList)
      modifies this, curReq`written, curReq`errCode, disk
      ensures state.Idle? && curReq == null && !responded
      ensures old(responded) ==> unchanged(disk) && unchanged(old(curReq)`written)
      ensures !old(responded) ==>
        var all := LogBytes(old(curReq.dataList));
        && old(curReq).written == WrittenOf(outcome, |all|)
        && old(curReq).errCode == (if outcome >= 0 then 0 else outcome)
        && disk.trace == old(disk.trace) + [Appended(old(curReq.file).value, all[..old(curReq).written])]
    {
      if !responded {
        DoIo(disk, outcome);
      }
      responded := false;
      state := Idle;
      curReq := null;
    }

    /** The answer arrived in the event loop. */
    method OnIoDone() returns (req: IoRequest)
      requires state.Executing? && responded && curReq != null
      modifies this
      ensures req == old(curReq) && state.Idle? && curReq == null && !responded
    {
      req := curReq;
      responded := false;
      state := Idle;
      curReq := null;
    }
  }

  // ------------------------------------------- the scheduler's state as a value

  /** A history without the len bytes that precede its last ones. */
  function CutOut(s: seq<Byte>, len: nat, after: nat): seq<Byte> {
    if len + after <= |s| then s[..|s| - len - after] + s[|s| - after..] else s
  }

  function CutEnd(s: seq<Patch>, len: nat): seq<Patch> {
    if len <= |s| then s[..|s| - len] else s
  }

  lemma {:induction false} CutOutMiddle(a: seq<Byte>, b: seq<Byte>, c: seq<Byte>)
    ensures CutOut(a + (b + c), |b|, |c|) == a + c
  {
    var s := a + (b + c);
    assert s[..|s| - |b| - |c|] == a;
    assert s[|s| - |c|..] == c;
  }

  /** Where the buffers are, what is on the disk, and the history: all bytes enqueued
      for appending, the same without those given up since, how many were given up, and the
      writes at an offset that were enqueued and not discarded. */
  datatype SchedState = SchedState(
    free: seq<DataBuffer>,
    queue: seq<DataBuffer>,
    batch: seq<DataBuffer>,
    client: set<BufferId>,
    trace: seq<DiskEvent>,
    enqueued: seq<Byte>,
    stream: seq<Byte>,
    dropped: nat,
    asked: seq<Patch>)
  {
    /** Each buffer is in exactly one place. */
    predicate Partitioned(pool: set<BufferId>) {
      Ids(free) + Ids(queue) + Ids(batch) + multiset(client) == multiset(pool)
    }

    /** The stream is what is on the disk, the rest of the batch of which `done`
        bytes are on the disk, and the queue. */
    predicate Streamed(done: nat) {
      && done <= |LogBytes(batch)|
      && stream == AppendedBytes(trace) + (LogBytes(batch)[done..] + LogBytes(queue))
      && |enqueued| == |stream| + dropped
      && (dropped == 0 ==> stream == enqueued)
    }

    /** Each write at an offset that was enqueued was made, or is still asked for. */
    predicate Fulfilled() {
      asked == Made(trace) + Asks(queue)
    }

    predicate Core(pool: set<BufferId>, done: nat) {
      && Partitioned(pool) && Streamed(done) && Fulfilled()
      && AllClean(free) && AllValid(queue) && AllValid(batch) && AllAppend(batch)
    }

    function Take(): SchedState
      requires free != []
    {
      this.(free := free[..|free| - 1], client := client + {free[|free| - 1].id})
    }

    function GiveBack(buf: DataBuffer): SchedState {
      this.(free := free + [buf.Reset()], client := client - {buf.id})
    }

    function Enqueue(buf: DataBuffer): SchedState {
      var bytes := LogBytes([buf]);
      this.(queue := queue + [buf], client := client - {buf.id}, enqueued := enqueued + bytes, stream := stream + bytes,
            asked := asked + Asks([buf]))
    }

    function WriteOffsets(file: FileId): SchedState {
      this.(queue := Appends(queue), free := free + Patched(queue), trace := trace + Patches(file, queue))
    }

    function Start(): SchedState {
      this.(queue := [], batch := batch + queue)
    }

    function Commit(file: FileId, threshold: nat, maxBlocks: nat): SchedState {
      var sorted := WriteOffsets(file);
      if EnoughToWrite(sorted.queue, threshold, maxBlocks) then sorted.Start() else sorted
    }

    /** The I/O thread wrote the first n bytes of the batch. */
    function ThreadWrote(file: FileId, n: nat): SchedState
      requires n <= |LogBytes(batch)|
    {
      this.(trace := trace + [Appended(file, LogBytes(batch)[..n])])
    }

    /** The outcome of a batch of which n bytes are on the disk: what was not written
        goes back to the head of the queue, unless nothing was written at all. */
    function Settle(n: nat): SchedState {
      if n > 0 then
        this.(free := free + Finished(batch, n), queue := Unfinished(batch, n) + queue, batch := [])
      else
        var lost := |LogBytes(batch)|;
        this.(free := free + ResetAll(batch), batch := [],
              stream := CutOut(stream, lost, |LogBytes(queue)|), dropped := dropped + lost)
    }

    function Discard(): SchedState {
      var lost := |LogBytes(queue)|;
      this.(free := free + ResetAll(queue), queue := [], stream := CutOut(stream, lost, 0), dropped := dropped + lost,
            asked := CutEnd(asked, |Asks(queue)|))
    }
  }

  lemma {:induction false} LeaveClient(client: set<BufferId>, id: BufferId)
    requires id in client
    ensures multiset(client) == multiset(client - {id}) + multiset{id}
  {
  }

  lemma {:induction false} OneMore(bufs: seq<DataBuffer>, buf: DataBuffer)
    ensures Ids(bufs + [buf]) == Ids(bufs) + multiset{buf.id}
    ensures LogBytes(bufs + [buf]) == LogBytes(bufs) + LogBytes([buf])
  {
    assert Ids([buf]) == multiset{buf.id};
    IdsConcat(bufs, [buf]);
    LogBytesConcat(bufs, [buf]);
  }

  lemma {:induction false} JoinClient(rest: multiset<BufferId>, id: BufferId, client: set<BufferId>, pool: set<BufferId>)
    requires rest + multiset{id} + multiset(client) == multiset(pool)
    ensures id !in client && rest + multiset(client + {id}) == multiset(pool)
  {
    assert multiset(pool)[id] <= 1;
    assert multiset(client + {id}) == multiset(client) + multiset{id};
  }

  lemma {:induction false} TakeKeepsCore(s: SchedState, pool: set<BufferId>, done: nat)
    requires s.Core(pool, done) && s.free != []
    ensures s.Take().Core(pool, done)
    ensures s.free[|s.free| - 1].id !in s.client
  {
    hide LogBytes, Ids;
    var init, last := s.free[..|s.free| - 1], s.free[|s.free| - 1];
    assert s.free == init + [last];
    OneMore(init, last);
    JoinClient(Ids(init) + Ids(s.queue) + Ids(s.batch), last.id, s.client, pool);
  }

  lemma {:induction false} GiveBackKeepsCore(s: SchedState, buf: DataBuffer, pool: set<BufferId>, done: nat)
    requires s.Core(pool, done) && buf.id in s.client
    ensures s.GiveBack(buf).Core(pool, done)
  {
    hide LogBytes, Ids;
    LeaveClient(s.client, buf.id);
    OneMore(s.free, buf.Reset());
    CleanConcat(s.free, [buf.Reset()]);
  }

  /** What is asked for at an offset is kept by what adds to the queue, hands it on, or puts
      a rest of a batch back. */
  lemma {:induction false} StepsFulfil(s: SchedState, buf: DataBuffer, n: nat)
    requires s.Fulfilled() && AllValid(s.batch) && AllAppend(s.batch)
    ensures s.Enqueue(buf).Fulfilled() && s.Settle(n).Fulfilled()
    ensures AllAppend(s.queue) ==> s.Start().Fulfilled()
  {
    AsksConcat(s.queue, [buf]);
    AppendsAskNothing(s.queue);
    UnfinishedShape(s.batch, n);
    AppendsAskNothing(Unfinished(s.batch, n));
    AsksConcat(Unfinished(s.batch, n), s.queue);
    hide Unfinished, Finished, ResetAll, LogBytes, CutOut, Made;
  }

  lemma {:induction false} EnqueueKeepsCore(s: SchedState, buf: DataBuffer, pool: set<BufferId>, done: nat)
    requires s.Core(pool, done) && buf.id in s.client && buf.Valid()
    ensures s.Enqueue(buf).Core(pool, done)
  {
    hide LogBytes, Ids, Asks, Made, SchedState.Fulfilled;
    LeaveClient(s.client, buf.id);
    OneMore(s.queue, buf);
    StepsFulfil(s, buf, 0);
  }

  /** Writes at an offset leave the stream alone and free exactly their buffers. */
  lemma {:induction false} WriteOffsetsKeepsCore(s: SchedState, file: FileId, pool: set<BufferId>, done: nat)
    requires s.Core(pool, done)
    ensures var sorted := s.WriteOffsets(file);
      sorted.Core(pool, done) && AllAppend(sorted.queue) && Asks(sorted.queue) == [] && sorted.stream == s.stream
  {
    SortedOut(s.queue, s.free, file, s.trace);
    AppendsAskNothing(Appends(s.queue));
  }

  lemma {:induction false} StartKeepsCore(s: SchedState, pool: set<BufferId>)
    requires s.Core(pool, 0) && s.batch == [] && AllAppend(s.queue)
    ensures s.Start().Core(pool, 0) && s.Start().batch == s.queue && s.Start().queue == []
  {
    hide SchedState.Fulfilled;
    assert s.batch + s.queue == s.queue;
    StepsFulfil(s, DataBuffer(0, [], 0, 0, 0), 0);
  }

  /** Committing moves no byte and no buffer away, and makes a batch of all that is to be
      appended exactly if that has at least `threshold` bytes or half of the buffers. */
  lemma {:induction false} CommitKeepsCore(s: SchedState, file: FileId, threshold: nat, maxBlocks: nat, pool: set<BufferId>)
    requires s.Core(pool, 0) && s.batch == []
    ensures var r := s.Commit(file, threshold, maxBlocks);
      && r.Core(pool, 0)
      && LogBytes(r.batch) + LogBytes(r.queue) == LogBytes(s.queue)
      && (r.batch == [] || r.queue == [])
      && (r.batch != [] <==>
            Appends(s.queue) != [] && (|LogBytes(s.queue)| >= threshold || |Appends(s.queue)| >= maxBlocks / 2))
      && (r.batch == [] ==> r.queue == Appends(s.queue))
  {
    hide SchedState.Core, LogBytes, Appends, Patched, Patches;
    var sorted := s.WriteOffsets(file);
    WriteOffsetsKeepsCore(s, file, pool, 0);
    StartKeepsCore(sorted, pool);
    CommitsBytes(s, pool);
    TotalLenIsBytes(Appends(s.queue));
  }

  lemma {:induction false} CommitsBytes(s: SchedState, pool: set<BufferId>)
    requires s.Core(pool, 0)
    ensures LogBytes(Appends(s.queue)) == LogBytes(s.queue) && LogBytes([]) == []
    ensures AllAppend(Appends(s.queue)) && AllValid(Appends(s.queue))
  {
    AppendsKeepBytes(s.queue);
    AppendsAreAppends(s.queue);
  }

  lemma {:induction false} ThreadWroteKeepsCore(s: SchedState, file: FileId, n: nat, pool: set<BufferId>)
    requires s.Core(pool, 0) && n <= |LogBytes(s.batch)|
    ensures s.ThreadWrote(file, n).Core(pool, n)
  {
    hide LogBytes, Ids;
    var e := Appended(file, LogBytes(s.batch)[..n]);
    assert (s.trace + [e])[..|s.trace|] == s.trace;
    assert AppendedBytes(s.trace + [e]) == AppendedBytes(s.trace) + e.bytes;
    assert LogBytes(s.batch) == e.bytes + LogBytes(s.batch)[n..];
  }

  lemma {:induction false} SettleKeepsBuffers(s: SchedState, n: nat, pool: set<BufferId>)
    requires s.Partitioned(pool) && (n == 0 ==> |LogBytes(s.batch)| + |LogBytes(s.queue)| <= |s.stream|)
    ensures s.Settle(n).Partitioned(pool)
  {
    assert Ids([]) == multiset{};
    hide LogBytes, Ids, Unfinished, Finished, ResetAll;
    if n == 0 {
      ResetKeepsIds(s.batch);
      IdsConcat(s.free, ResetAll(s.batch));
    } else {
      UnfinishedBuffers(s.batch, n);
      IdsConcat(s.free, Finished(s.batch, n));
      IdsConcat(Unfinished(s.batch, n), s.queue);
    }
  }

  lemma {:induction false} SettleKeepsStream(s: SchedState, n: nat)
    requires s.Streamed(n) && AllValid(s.batch) && AllAppend(s.batch)
    ensures n == 0 ==> |LogBytes(s.batch)| + |LogBytes(s.queue)| <= |s.stream|
    ensures s.Settle(n).Streamed(0)
    ensures s.Settle(n).stream == if n > 0 then s.stream else AppendedBytes(s.trace) + LogBytes(s.queue)
  {
    assert LogBytes([]) == [];
    hide LogBytes, Unfinished, Finished, ResetAll, AppendedBytes, CutOut;
    var a, b, c := AppendedBytes(s.trace), LogBytes(s.batch), LogBytes(s.queue);
    if n == 0 {
      assert b[0..] == b;
      CutOutMiddle(a, b, c);
      assert [][0..] + c == c;
    } else {
      UnfinishedBytes(s.batch, n);
      LogBytesConcat(Unfinished(s.batch, n), s.queue);
      assert s.stream == a + (b[n..] + c) == a + ([][0..] + (b[n..] + c));
    }
  }

  /** For every number of bytes written, nothing of the stream is lost and no buffer
      either; a batch of which nothing was written is given up whole. */
  lemma {:induction false} SettleKeepsCore(s: SchedState, n: nat, pool: set<BufferId>)
    requires s.Core(pool, n)
    ensures n <= |LogBytes(s.batch)| && (n == 0 ==> |LogBytes(s.batch)| + |LogBytes(s.queue)| <= |s.stream|)
    ensures s.Settle(n).Core(pool, 0)
    ensures s.Settle(n).stream == if n > 0 then s.stream else AppendedBytes(s.trace) + LogBytes(s.queue)
    ensures n > 0 ==> s.Settle(n).dropped == s.dropped
  {
    assert n <= |LogBytes(s.batch)|;
    hide SchedState.Partitioned, SchedState.Streamed, SchedState.Fulfilled, LogBytes, Unfinished, Finished, ResetAll,
      AppendedBytes, CutOut;
    StepsFulfil(s, DataBuffer(0, [], 0, 0, 0), n);
    SettleKeepsStream(s, n);
    SettleKeepsBuffers(s, n, pool);
    SettleShape(s, n);
    hide AllClean, AllValid, AllAppend;
  }

  lemma {:induction false} SettleShape(s: SchedState, n: nat)
    requires AllClean(s.free) && AllValid(s.queue) && AllValid(s.batch) && AllAppend(s.batch)
    ensures var r := s.Settle(n);
      AllClean(r.free) && AllValid(r.queue) && AllValid(r.batch) && AllAppend(r.batch)
  {
    hide LogBytes, Unfinished, Finished, ResetAll, CutOut;
    if n == 0 {
      ResetKeepsIds(s.batch);
      CleanConcat(s.free, ResetAll(s.batch));
    } else {
      UnfinishedShape(s.batch, n);
      FinishedAreClean(s.batch, n);
      CleanConcat(s.free, Finished(s.batch, n));
    }
  }

  lemma {:induction false} StreamIsLong(s: SchedState, pool: set<BufferId>, done: nat)
    requires s.Core(pool, done)
    ensures done == 0 ==> |LogBytes(s.batch)| + |LogBytes(s.queue)| <= |s.stream|
    ensures s.batch == [] && s.queue == [] ==> AppendedBytes(s.trace) == s.stream
  {
  }

  /** A batch is finished with nothing to put back exactly when all of it is written. */
  lemma {:induction false} WholeBatchFinishes(bufs: seq<DataBuffer>, n: nat)
    requires AllAppend(bufs) && AllValid(bufs)
    ensures Unfinished(bufs, n) == [] <==> n >= |LogBytes(bufs)|
  {
    if bufs != [] {
      assert |LogBytes(bufs)| == bufs[0].dataLen + |LogBytes(bufs[1..])|;
      if bufs[0].dataLen <= n {
        WholeBatchFinishes(bufs[1..], n - bufs[0].dataLen);
      }
    }
  }

  /** After a whole write only the queue is left to be written. */
  lemma {:induction false} WholeWriteSettles(s: SchedState, pool: set<BufferId>)
    requires s.Core(pool, |LogBytes(s.batch)|)
    ensures var n := |LogBytes(s.batch)|;
      && (n == 0 ==> |LogBytes(s.batch)| + |LogBytes(s.queue)| <= |s.stream|)
      && s.Settle(n).queue == s.queue && s.Settle(n).stream == s.stream && s.Settle(n).dropped == s.dropped
  {
    var n := |LogBytes(s.batch)|;
    SettleKeepsCore(s, n, pool);
    WholeBatchFinishes(s.batch, n);
    assert s.stream == AppendedBytes(s.trace) + (LogBytes(s.batch)[n..] + LogBytes(s.queue));
    hide LogBytes, Unfinished, Finished, ResetAll, AppendedBytes, CutOut, SchedState.Core;
    assert LogBytes(s.batch)[n..] + LogBytes(s.queue) == LogBytes(s.queue);
  }

  lemma {:induction false} DiscardKeepsStream(s: SchedState, done: nat)
    requires s.Streamed(done)
    ensures |LogBytes(s.queue)| <= |s.stream| && s.Discard().Streamed(done)
  {
    assert LogBytes([]) == [];
    hide AppendedBytes, LogBytes, ResetAll, CutOut;
    var a, b, c := AppendedBytes(s.trace), LogBytes(s.batch)[done..], LogBytes(s.queue);
    assert a + (b + c) == (a + b) + (c + []);
    CutOutMiddle(a + b, c, []);
    assert (a + b) + [] == a + (b + []);
  }

  lemma {:induction false} DiscardFulfils(s: SchedState)
    requires s.Fulfilled()
    ensures s.Discard().Fulfilled()
  {
    assert Asks([]) == [];
    hide Made, ResetAll, LogBytes, CutOut, Asks;
    assert CutEnd(Made(s.trace) + Asks(s.queue), |Asks(s.queue)|) == Made(s.trace);
  }

  lemma {:induction false} DiscardKeepsCore(s: SchedState, pool: set<BufferId>, done: nat)
    requires s.Core(pool, done)
    ensures |LogBytes(s.queue)| <= |s.stream|
    ensures s.Discard().Core(pool, done) && LogBytes(s.Discard().queue) == []
  {
    assert Ids([]) == multiset{} && LogBytes([]) == [];
    hide SchedState.Streamed, SchedState.Fulfilled, AppendedBytes, LogBytes, Ids, ResetAll, CutOut, CutEnd;
    DiscardFulfils(s);
    DiscardKeepsStream(s, done);
    ResetKeepsIds(s.queue);
    IdsConcat(s.free, ResetAll(s.queue));
    CleanConcat(s.free, ResetAll(s.queue));
  }

  /** If an idle channel leaves fewer than half of the buffers queued, then a client
      that holds at most half of them and finds none free knows a write is in flight. */
  lemma {:induction false} NoFreeBufferMeansWriting(s: SchedState, pool: set<BufferId>, done: nat)
    requires s.Core(pool, done) && (s.batch != [] || |s.queue| < |pool| / 2)
    requires |s.client| <= |pool| / 2
    ensures s.free == [] ==> s.batch != []
  {
    IdsLen(s.free);
    IdsLen(s.queue);
    IdsLen(s.batch);
    assert |multiset(pool)| == |s.free| + |s.queue| + |s.batch| + |s.client|;
  }

  /** Flushing asks for an empty batch, too, exactly if every queued buffer goes to an offset.
      Settling it gives nothing up. */
  lemma {:induction false} EmptyFlushExactly(s: SchedState, file: FileId, pool: set<BufferId>)
    requires s.Core(pool, 0) && s.batch == []
    ensures var started := s.WriteOffsets(file).Start();
      && (started.batch == [] <==> forall i :: 0 <= i < |s.queue| ==> !s.queue[i].ToAppend())
      && (started.batch == [] ==> started.Settle(0) == started)
  {
    AppendsEmpty(s.queue);
    var started := s.WriteOffsets(file).Start();
    if started.batch == [] {
      assert started.free + ResetAll([]) == started.free;
      assert CutOut(started.stream, 0, 0) == started.stream;
    }
  }

  lemma {:induction false} AppendsEmpty(bufs: seq<DataBuffer>)
    ensures Appends(bufs) == [] <==> forall i :: 0 <= i < |bufs| ==> !bufs[i].ToAppend()
  {
    if bufs != [] {
      AppendsEmpty(bufs[1..]);
      assert forall i :: 0 < i < |bufs| ==> bufs[i] == bufs[1..][i - 1];
      assert forall i :: 0 <= i < |bufs| - 1 ==> bufs[1..][i] == bufs[i + 1];
    }
  }

  // ---------------------------------------------------- the log with its file

  datatype Config = Config(threshold: nat, maxBlocks: nat, pool: set<BufferId>) {
    predicate Valid() {
      threshold > 0 && maxBlocks >= 2 && |pool| == maxBlocks
    }
  }

  /** What the client may do when it is told that a file was written. A change of the medium
      makes it flush and close. */
  datatype CallbackOp = CloseFile | OpenFile(file: FileId) | DiscardQueue | FlushFile(outcome: int)

  /** The scheduler with the open file. `done` is how much of the batch the thread wrote,
      once it did and until its answer is taken. */
  datatype LogState = LogState(s: SchedState, file: Option<FileId>, done: Option<nat>) {

    function Written(): nat {
      if done.Some? then done.value else 0
    }

    predicate Inv(pool: set<BufferId>) {
      && s.Core(pool, Written())
      && (s.batch != [] ==> file.Some?)
      && (s.batch == [] ==> done.None?)
    }

    /** An idle channel leaves little in the queue. */
    predicate Rests(c: Config) {
      s.batch != [] || (|LogBytes(s.queue)| < c.threshold && |s.queue| < c.maxBlocks / 2)
    }

    /** The I/O thread takes the batch up and writes some prefix of it, or fails. */
    function ThreadWrites(outcome: int): LogState
      requires file.Some?
    {
      var n := WrittenOf(outcome, |LogBytes(s.batch)|);
      LogState(s.ThreadWrote(file.value, n), file, Some(n))
    }

    function Settled(): LogState {
      LogState(s.Settle(Written()), file, None)
    }

    /** Waits for the batch, which is written before or now. */
    function Await(outcome: int): LogState
      requires file.Some?
    {
      (if done.Some? then this else ThreadWrites(outcome)).Settled()
    }

    function Started(): LogState
      requires file.Some?
    {
      LogState(s.WriteOffsets(file.value).Start(), file, None)
    }

    function FlushQueue(outcome: int): LogState
      requires file.Some?
    {
      if s.queue == [] then this else Started().Await(outcome)
    }

    function Flush(outcome1: int, outcome2: int): LogState {
      if file.None? then this
      else (if s.batch == [] then this else Await(outcome1)).FlushQueue(outcome2)
    }

    function Close(outcome: int): LogState {
      if s.batch == [] || file.None? then this.(file := None)
      else
        var awaited := Await(outcome);
        awaited.(s := awaited.s.WriteOffsets(file.value), file := None)
    }

    function Commit(c: Config): LogState {
      if file.None? then this else this.(s := s.Commit(file.value, c.threshold, c.maxBlocks))
    }

    function Enqueue(buf: DataBuffer, c: Config): LogState {
      var queued := this.(s := s.Enqueue(buf));
      if s.batch == [] then queued.Commit(c) else queued
    }

    /** What a client does while no batch is in flight. */
    function React(op: CallbackOp): LogState {
      match op
      case CloseFile => this.(file := None)
      case OpenFile(f) => this.(file := Some(f))
      case DiscardQueue => this.(s := s.Discard())
      case FlushFile(outcome) => if file.None? then this else FlushQueue(outcome)
    }

    function ReactAll(ops: seq<CallbackOp>): LogState
      decreases ops
    {
      if ops == [] then this else React(ops[0]).ReactAll(ops[1..])
    }

    /** The answer of the thread is taken: the batch is settled, the client is told, and
        more is committed if there is a file. */
    function Answer(ops: seq<CallbackOp>, c: Config): LogState {
      Settled().ReactAll(ops).Commit(c)
    }

    /** The batch has bytes, and none is on the disk after waiting for it. */
    predicate Fails(outcome: int) {
      LogBytes(s.batch) != [] && (if done.Some? then done.value else WrittenOf(outcome, |LogBytes(s.batch)|)) == 0
    }
  }

  lemma {:induction false} SettledKeeps(l: LogState, pool: set<BufferId>)
    requires l.s.Core(pool, l.Written())
    ensures l.Settled().Inv(pool) && l.Settled().s.batch == []
    ensures !(LogBytes(l.s.batch) != [] && l.Written() == 0) ==>
      l.Settled().s.dropped == l.s.dropped && l.Settled().s.stream == l.s.stream
  {
    SettleKeepsCore(l.s, l.Written(), pool);
    assert l.s.stream == AppendedBytes(l.s.trace) + (LogBytes(l.s.batch)[l.Written()..] + LogBytes(l.s.queue));
    hide SchedState.Core, AppendedBytes;
    assert [][0..] + LogBytes(l.s.queue) == LogBytes(l.s.queue);
  }

  lemma {:induction false} ThreadWritesKeeps(l: LogState, outcome: int, pool: set<BufferId>)
    requires l.s.Core(pool, 0) && l.file.Some?
    ensures l.ThreadWrites(outcome).s.Core(pool, l.ThreadWrites(outcome).Written())
    ensures l.s.batch != [] ==> l.ThreadWrites(outcome).Inv(pool)
  {
    hide SchedState.Core, LogBytes;
    ThreadWroteKeepsCore(l.s, l.file.value, WrittenOf(outcome, |LogBytes(l.s.batch)|), pool);
  }

  lemma {:induction false} AwaitKeeps(l: LogState, outcome: int, pool: set<BufferId>)
    requires l.s.Core(pool, l.Written()) && l.file.Some?
    ensures l.Await(outcome).Inv(pool) && l.Await(outcome).s.batch == [] && l.Await(outcome).file == l.file
    ensures !l.Fails(outcome) ==> l.Await(outcome).s.dropped == l.s.dropped && l.Await(outcome).s.stream == l.s.stream
  {
    hide SchedState.Core, LogBytes, LogState.Inv, SchedState.Settle;
    if l.done.Some? {
      SettledKeeps(l, pool);
    } else {
      ThreadWritesKeeps(l, outcome, pool);
      SettledKeeps(l.ThreadWrites(outcome), pool);
    }
  }

  lemma {:induction false} StartedKeeps(l: LogState, pool: set<BufferId>)
    requires l.Inv(pool) && l.s.batch == [] && l.file.Some?
    ensures l.Started().s.Core(pool, 0) && l.Started().s.dropped == l.s.dropped && l.Started().s.stream == l.s.stream
  {
    hide SchedState.Core;
    WriteOffsetsKeepsCore(l.s, l.file.value, pool, 0);
    StartKeepsCore(l.s.WriteOffsets(l.file.value), pool);
  }

  lemma {:induction false} FlushQueueKeeps(l: LogState, outcome: int, pool: set<BufferId>)
    requires l.Inv(pool) && l.s.batch == [] && l.file.Some?
    ensures var r := l.FlushQueue(outcome);
      && r.Inv(pool) && r.s.batch == [] && r.file == l.file
      && (l.s.queue == [] || !l.Started().Fails(outcome) ==> r.s.dropped == l.s.dropped && r.s.stream == l.s.stream)
  {
    hide SchedState.Core, LogBytes, LogState.Await;
    if l.s.queue != [] {
      StartedKeeps(l, pool);
      AwaitKeeps(l.Started(), outcome, pool);
    }
  }

  /** No write of a flush fails whole. */
  predicate FlushSucceeds(l: LogState, outcome1: int, outcome2: int) {
    l.file.Some? ==>
      && (l.s.batch != [] ==> !l.Fails(outcome1))
      && var quiet := if l.s.batch == [] then l else l.Await(outcome1);
      quiet.file.Some? && quiet.s.queue != [] ==> !quiet.Started().Fails(outcome2)
  }

  lemma {:induction false} FlushKeeps(l: LogState, outcome1: int, outcome2: int, pool: set<BufferId>)
    requires l.Inv(pool)
    ensures var r := l.Flush(outcome1, outcome2);
      && r.Inv(pool) && r.file == l.file && (l.file.Some? ==> r.s.batch == [])
      && (FlushSucceeds(l, outcome1, outcome2) ==> r.s.dropped == l.s.dropped && r.s.stream == l.s.stream)
  {
    if l.file.Some? {
      assert l.s.Core(pool, l.Written());
      hide SchedState.Core, LogBytes, LogState.Await, LogState.FlushQueue, LogState.Inv, LogState.Fails, LogState.Started;
      if l.s.batch != [] {
        AwaitKeeps(l, outcome1, pool);
        FlushQueueKeeps(l.Await(outcome1), outcome2, pool);
      } else {
        FlushQueueKeeps(l, outcome2, pool);
      }
    }
  }

  /** A batch that is written whole. */
  lemma {:induction false} WholeAwait(l: LogState, outcome: int, pool: set<BufferId>)
    requires l.s.Core(pool, 0) && l.file.Some? && l.done.None? && outcome >= |LogBytes(l.s.batch)|
    ensures var r := l.Await(outcome);
      r.s.queue == l.s.queue && r.s.stream == l.s.stream && r.s.dropped == l.s.dropped
  {
    hide SchedState.Core, LogBytes, SchedState.Settle;
    ThreadWroteKeepsCore(l.s, l.file.value, |LogBytes(l.s.batch)|, pool);
    WholeWriteSettles(l.ThreadWrites(outcome).s, pool);
  }

  lemma {:induction false} WholeFlushQueue(l: LogState, outcome: int, pool: set<BufferId>)
    requires l.Inv(pool) && l.s.batch == [] && l.file.Some? && outcome >= |l.s.stream|
    ensures var r := l.FlushQueue(outcome);
      r.s.queue == [] && r.s.stream == l.s.stream && r.s.dropped == l.s.dropped && AppendedBytes(r.s.trace) == r.s.stream
  {
    FlushQueueKeeps(l, outcome, pool);
    StartedKeeps(l, pool);
    StreamIsLong(l.Started().s, pool, 0);
    if l.s.queue != [] {
      WholeAwait(l.Started(), outcome, pool);
    }
    assert l.FlushQueue(outcome).Inv(pool);
    hide LogBytes, LogState.Await, LogState.FlushQueue, LogState.Started;
    StreamIsLong(l.FlushQueue(outcome).s, pool, 0);
  }

  /** If no write falls short, the whole stream is on the disk after a flush. */
  lemma {:induction false} WholeFlush(l: LogState, outcome1: int, outcome2: int, pool: set<BufferId>)
    requires l.Inv(pool)
    ensures l.file.Some? && (l.done.Some? ==> l.done.value > 0) && outcome1 >= |l.s.stream| && outcome2 >= |l.s.stream| ==>
      var r := l.Flush(outcome1, outcome2);
      r.s.queue == [] && AppendedBytes(r.s.trace) == r.s.stream == l.s.stream && r.s.dropped == l.s.dropped
  {
    if (l.file.Some? && (l.done.Some? ==> l.done.value > 0) && outcome1 >= |l.s.stream| && outcome2 >= |l.s.stream|) {
      assert l.s.Core(pool, l.Written());
      StreamIsLong(l.s, pool, l.Written());
      hide SchedState.Core, LogBytes, LogState.Await, LogState.FlushQueue, AppendedBytes;
      if l.s.batch == [] {
        WholeFlushQueue(l, outcome2, pool);
      } else {
        AwaitKeeps(l, outcome1, pool);
        WholeFlushQueue(l.Await(outcome1), outcome2, pool);
      }
    }
  }

  lemma {:induction false} CloseKeeps(l: LogState, outcome: int, pool: set<BufferId>)
    requires l.Inv(pool)
    ensures var r := l.Close(outcome);
      && r.Inv(pool) && r.file == None && r.s.batch == [] && (l.s.batch != [] ==> Asks(r.s.queue) == [])
      && (l.s.batch == [] || !l.Fails(outcome) ==> r.s.dropped == l.s.dropped && r.s.stream == l.s.stream)
  {
    hide SchedState.Core, LogBytes, LogState.Await, LogState.Fails;
    if l.s.batch != [] {
      AwaitKeeps(l, outcome, pool);
      WriteOffsetsKeepsCore(l.Await(outcome).s, l.file.value, pool, 0);
    }
  }

  /** What there is to append has the size of the threshold or half of the buffers. */
  predicate CallsForCommit(queue: seq<DataBuffer>, c: Config) {
    |LogBytes(queue)| >= c.threshold || |Appends(queue)| >= c.maxBlocks / 2
  }

  lemma {:induction false} EmptyHasNone(s: SchedState, pool: set<BufferId>)
    requires s.Core(pool, 0)
    ensures LogBytes([]) == [] && (Appends(s.queue) == [] ==> LogBytes(s.queue) == [])
  {
    AppendsKeepBytes(s.queue);
  }

  lemma {:induction false} CommitKeepsStream(s: SchedState, file: FileId, c: Config)
    requires s.Core(c.pool, 0)
    ensures var r := s.Commit(file, c.threshold, c.maxBlocks);
      r.stream == s.stream && r.dropped == s.dropped
  {
    WriteOffsetsKeepsCore(s, file, c.pool, 0);
  }

  lemma {:induction false} LogCommitKeeps(l: LogState, c: Config)
    requires c.Valid() && l.Inv(c.pool) && l.s.batch == []
    ensures var r := l.Commit(c);
      && r.Inv(c.pool) && r.file == l.file && r.done == None && (l.file.Some? ==> r.Rests(c))
      && r.s.dropped == l.s.dropped && r.s.stream == l.s.stream
      && (r.s.batch != [] <==> l.file.Some? && CallsForCommit(l.s.queue, c))
      && LogBytes(r.s.batch) + LogBytes(r.s.queue) == LogBytes(l.s.queue)
      && (l.file.Some? ==> Asks(r.s.queue) == [])
  {
    AppendsAreAppends(l.s.queue);
    AppendsAskNothing(Appends(l.s.queue));
    assert Asks([]) == [];
    hide SchedState.Core, LogBytes, Asks, Appends, SchedState.Commit;
    EmptyHasNone(l.s, c.pool);
    if l.file.Some? {
      CommitKeepsCore(l.s, l.file.value, c.threshold, c.maxBlocks, c.pool);
      CommitKeepsStream(l.s, l.file.value, c);
    }
  }

  lemma {:induction false} LogEnqueueKeeps(l: LogState, buf: DataBuffer, c: Config)
    requires c.Valid() && l.Inv(c.pool) && l.file.Some? && buf.id in l.s.client && buf.Valid()
    ensures var r := l.Enqueue(buf, c);
      && r.Inv(c.pool) && r.Rests(c) && r.file == l.file && r.done == l.done
      && r.s.dropped == l.s.dropped && r.s.stream == l.s.stream + LogBytes([buf])
  {
    hide SchedState.Core, LogBytes, LogState.Commit;
    EnqueueKeepsCore(l.s, buf, c.pool, l.Written());
    if l.s.batch == [] {
      LogCommitKeeps(l.(s := l.s.Enqueue(buf)), c);
    }
  }

  /** The operation gives no bytes up. */
  predicate Harmless(l: LogState, op: CallbackOp) {
    match op
    case CloseFile | OpenFile(_) => true
    case DiscardQueue => false
    case FlushFile(outcome) => l.file.Some? && l.s.queue != [] ==> !l.Started().Fails(outcome)
  }

  predicate AllHarmless(l: LogState, ops: seq<CallbackOp>)
    decreases ops
  {
    ops != [] ==> Harmless(l, ops[0]) && AllHarmless(l.React(ops[0]), ops[1..])
  }

  lemma {:induction false} ReactKeeps(l: LogState, op: CallbackOp, pool: set<BufferId>)
    requires l.Inv(pool) && l.s.batch == []
    ensures var r := l.React(op);
      && r.Inv(pool) && r.s.batch == []
      && (Harmless(l, op) ==> r.s.dropped == l.s.dropped && r.s.stream == l.s.stream)
  {
    hide SchedState.Core, LogBytes, LogState.FlushQueue;
    match op {
      case CloseFile | OpenFile(_) =>
      case DiscardQueue => DiscardKeepsCore(l.s, pool, 0);
      case FlushFile(outcome) =>
        if l.file.Some? {
          FlushQueueKeeps(l, outcome, pool);
        }
    }
  }

  lemma {:induction false} ReactAllKeeps(l: LogState, ops: seq<CallbackOp>, pool: set<BufferId>)
    requires l.Inv(pool) && l.s.batch == []
    ensures var r := l.ReactAll(ops);
      && r.Inv(pool) && r.s.batch == []
      && (AllHarmless(l, ops) ==> r.s.dropped == l.s.dropped && r.s.stream == l.s.stream)
    decreases ops
  {
    hide LogState.Inv, LogState.React, Harmless;
    if ops != [] {
      ReactKeeps(l, ops[0], pool);
      ReactAllKeeps(l.React(ops[0]), ops[1..], pool);
    }
  }

  /** Neither the batch is given up whole nor does the client give anything up. */
  predicate AnswerSucceeds(l: LogState, ops: seq<CallbackOp>) {
    !(LogBytes(l.s.batch) != [] && l.Written() == 0) && AllHarmless(l.Settled(), ops)
  }

  lemma {:induction false} AnswerKeeps(l: LogState, ops: seq<CallbackOp>, c: Config)
    requires c.Valid() && l.Inv(c.pool)
    ensures var r := l.Answer(ops, c);
      && r.Inv(c.pool) && (r.file.Some? ==> r.Rests(c)) && r.done == None
      && (AnswerSucceeds(l, ops) ==> r.s.dropped == l.s.dropped && r.s.stream == l.s.stream)
  {
    assert l.s.Core(c.pool, l.Written());
    hide SchedState.Core, LogBytes, LogState.Inv, LogState.Commit, LogState.Settled, LogState.ReactAll, AllHarmless;
    SettledKeeps(l, c.pool);
    ReactAllKeeps(l.Settled(), ops, c.pool);
    LogCommitKeeps(l.Settled().ReactAll(ops), c);
  }

  // ------------------------------------------------------------- whole runs

  /** What happens to a scheduler. A client that asks for a buffer may find none; one that
      enqueues or gives back must hold the buffer. A number is the outcome of a write. */
  datatype Event =
    | Got
    | GaveBack(buf: DataBuffer)
    | Enqueued(buf: DataBuffer)
    | ThreadWrote(outcome: int)
    | Answered(ops: seq<CallbackOp>)
    | Flushed(outcome1: int, outcome2: int)
    | Closed(outcome: int)
    | Opened(file: FileId)
    | Discarded

  predicate Possible(l: LogState, e: Event) {
    match e
    case GaveBack(buf) => buf.id in l.s.client
    case Enqueued(buf) => l.file.Some? && buf.id in l.s.client && buf.Valid()
    case ThreadWrote(_) => l.s.batch != [] && l.file.Some? && l.done.None?
    case Answered(_) => l.done.Some?
    case Opened(_) => l.s.batch == []
    case _ => true
  }

  function Step(l: LogState, e: Event, c: Config): LogState
    requires Possible(l, e)
  {
    match e
    case Got => if l.s.free == [] then l else l.(s := l.s.Take())
    case GaveBack(buf) => l.(s := l.s.GiveBack(buf))
    case Enqueued(buf) => l.Enqueue(buf, c)
    case ThreadWrote(outcome) => l.ThreadWrites(outcome)
    case Answered(ops) => l.Answer(ops, c)
    case Flushed(outcome1, outcome2) => l.Flush(outcome1, outcome2)
    case Closed(outcome) => l.Close(outcome)
    case Opened(f) => l.(file := Some(f))
    case Discarded => l.(s := l.s.Discard())
  }

  /** The event gives no bytes up. */
  predicate Succeeds(l: LogState, e: Event) {
    match e
    case Answered(ops) => AnswerSucceeds(l, ops)
    case Flushed(outcome1, outcome2) => FlushSucceeds(l, outcome1, outcome2)
    case Closed(outcome) => l.s.batch == [] || !l.Fails(outcome)
    case Discarded => false
    case _ => true
  }

  function BytesOf(e: Event): seq<Byte> {
    if e.Enqueued? then LogBytes([e.buf]) else []
  }

  lemma {:induction false} StepKeeps(l: LogState, e: Event, c: Config)
    requires c.Valid() && l.Inv(c.pool) && Possible(l, e)
    ensures Step(l, e, c).Inv(c.pool)
    ensures Succeeds(l, e) ==> Step(l, e, c).s.dropped == l.s.dropped
    ensures Step(l, e, c).s.enqueued == l.s.enqueued + BytesOf(e)
  {
    EnqueuedKept(l, e, c);
    hide SchedState.Core, LogBytes;
    match e {
      case Got =>
        if l.s.free != [] {
          TakeKeepsCore(l.s, c.pool, l.Written());
        }
      case GaveBack(buf) => GiveBackKeepsCore(l.s, buf, c.pool, l.Written());
      case Enqueued(buf) => LogEnqueueKeeps(l, buf, c);
      case ThreadWrote(outcome) => ThreadWritesKeeps(l, outcome, c.pool);
      case Answered(ops) => AnswerKeeps(l, ops, c);
      case Flushed(outcome1, outcome2) => FlushKeeps(l, outcome1, outcome2, c.pool);
      case Closed(outcome) => CloseKeeps(l, outcome, c.pool);
      case Opened(_) =>
      case Discarded => DiscardKeepsCore(l.s, c.pool, l.Written());
    }
  }

  lemma {:induction false} ReactAllEnqueuesNothing(l: LogState, ops: seq<CallbackOp>)
    ensures l.ReactAll(ops).s.enqueued == l.s.enqueued
    ensures DiscardQueue !in ops ==> l.ReactAll(ops).s.asked == l.s.asked
    decreases ops
  {
    if ops != [] {
      ReactAllEnqueuesNothing(l.React(ops[0]), ops[1..]);
    }
  }

  lemma {:induction false} EnqueuedKept(l: LogState, e: Event, c: Config)
    requires Possible(l, e)
    ensures Step(l, e, c).s.enqueued == l.s.enqueued + BytesOf(e)
  {
    hide LogBytes;
    if e.Answered? {
      ReactAllEnqueuesNothing(l.Settled(), e.ops);
    }
  }

  /** After a buffer was enqueued or an answer taken with a file left open, an idle channel
      leaves less than half of the buffers queued; flushing, closing and opening may end that. */
  lemma {:induction false} StepRests(l: LogState, e: Event, c: Config)
    requires c.Valid() && l.Inv(c.pool) && Possible(l, e)
    ensures (e.Enqueued? || e.Discarded? || (e.Answered? && Step(l, e, c).file.Some?)) ==> Step(l, e, c).Rests(c)
    ensures l.Rests(c) && !e.Answered? && !e.Flushed? && !e.Closed? ==> Step(l, e, c).Rests(c)
  {
    assert LogBytes([]) == [];
    hide SchedState.Core, LogBytes;
    match e {
      case Enqueued(buf) => LogEnqueueKeeps(l, buf, c);
      case Answered(ops) => AnswerKeeps(l, ops, c);
      case _ =>
    }
  }

  /** The states of a run. */
  predicate IsRun(states: seq<LogState>, events: seq<Event>, c: Config) {
    && |states| == |events| + 1
    && forall i :: 0 <= i < |events| ==> Possible(states[i], events[i]) && states[i + 1] == Step(states[i], events[i], c)
  }

  /** What was enqueued for appending in a run. */
  function EnqueuedBytes(events: seq<Event>): seq<Byte> {
    if events == [] then [] else EnqueuedBytes(events[..|events| - 1]) + BytesOf(events[|events| - 1])
  }

  /** What was enqueued to be written at an offset. */
  function AskedIn(events: seq<Event>): seq<Patch> {
    if events == [] then []
    else
      var last := events[|events| - 1];
      AskedIn(events[..|events| - 1]) + (if last.Enqueued? then Asks([last.buf]) else [])
  }

  predicate Discards(e: Event) {
    e.Discarded? || (e.Answered? && DiscardQueue in e.ops)
  }

  /** A file may be open or not, and nothing has happened yet. */
  predicate Begins(l: LogState, c: Config) {
    l.Inv(c.pool) && l.s.enqueued == [] && l.s.dropped == 0 && l.s.asked == []
  }

  lemma {:induction false} AskedKept(l: LogState, e: Event, c: Config)
    requires Possible(l, e) && !Discards(e)
    ensures Step(l, e, c).s.asked == l.s.asked + (if e.Enqueued? then Asks([e.buf]) else [])
  {
    hide LogBytes, Asks, Made, AppendedBytes, Unfinished, Finished, ResetAll, Appends, Patched, Patches, CutOut;
    if e.Answered? {
      ReactAllEnqueuesNothing(l.Settled(), e.ops);
    }
  }

  /** In every run in which nothing is discarded, even if writes fail, each write at an offset
      was made once, in the order in which they were enqueued, but for those still queued. */
  lemma {:induction false} RunPatches(states: seq<LogState>, events: seq<Event>, c: Config)
    requires c.Valid() && IsRun(states, events, c) && Begins(states[0], c)
    requires forall i :: 0 <= i < |events| ==> !Discards(events[i])
    ensures var l := states[|events|];
      Made(l.s.trace) + Asks(l.s.queue) == AskedIn(events)
  {
    RunKeeps(states, events, c);
    AskedRun(states, events, c);
    hide Made, Asks, AskedIn, IsRun, LogBytes, Discards;
  }

  lemma {:induction false} AskedRun(states: seq<LogState>, events: seq<Event>, c: Config)
    requires IsRun(states, events, c) && states[0].s.asked == []
    requires forall i :: 0 <= i < |events| ==> !Discards(events[i])
    ensures states[|events|].s.asked == AskedIn(events)
    decreases |events|
  {
    hide LogBytes, Step, Possible, Asks, Discards;
    var k := |events| - 1;
    if k >= 0 {
      AskedRun(states[..k + 1], events[..k], c);
      AskedKept(states[k], events[k], c);
      assert states[k] == states[..k + 1][k];
    }
  }

  lemma {:induction false} RunKeeps(states: seq<LogState>, events: seq<Event>, c: Config)
    requires c.Valid() && IsRun(states, events, c) && Begins(states[0], c)
    ensures states[|events|].Inv(c.pool) && states[|events|].s.enqueued == EnqueuedBytes(events)
    ensures (forall i :: 0 <= i < |events| ==> Succeeds(states[i], events[i])) ==> states[|events|].s.dropped == 0
    decreases |events|
  {
    hide LogState.Inv, LogBytes, Step, Succeeds, Possible;
    var k := |events| - 1;
    if k >= 0 {
      RunKeeps(states[..k + 1], events[..k], c);
      StepKeeps(states[k], events[k], c);
      assert states[k] == states[..k + 1][k];
    }
  }

  /** In every run in which no batch is given up whole and nothing is discarded, however
      short the writes are, whenever the thread writes and files are flushed, closed and
      opened, the disk, then the rest of the batch in flight, then the queue hold exactly
      what was enqueued, in order, and no buffer is lost. */
  lemma {:induction false} RunConserves(states: seq<LogState>, events: seq<Event>, c: Config)
    requires c.Valid() && IsRun(states, events, c) && Begins(states[0], c)
    ensures var l := states[|events|];
      && l.Inv(c.pool)
      && l.s.enqueued == EnqueuedBytes(events)
      && l.Written() <= |LogBytes(l.s.batch)|
      && ((forall i :: 0 <= i < |events| ==> Succeeds(states[i], events[i])) ==>
            AppendedBytes(l.s.trace) + (LogBytes(l.s.batch)[l.Written()..] + LogBytes(l.s.queue)) == EnqueuedBytes(events))
  {
    RunKeeps(states, events, c);
    hide LogBytes, AppendedBytes, Succeeds, EnqueuedBytes, IsRun;
  }

  /** The last event of a run decides whether the idle channel leaves little in the queue. */
  lemma {:induction false} RunRests(states: seq<LogState>, events: seq<Event>, c: Config)
    requires c.Valid() && IsRun(states, events, c) && Begins(states[0], c) && states[0].Rests(c)
    requires forall i :: 0 <= i < |events| ==>
      !events[i].Flushed? && !events[i].Closed? && (events[i].Answered? ==> states[i + 1].file.Some?)
    ensures states[|events|].Rests(c)
    decreases |events|
  {
    var k := |events| - 1;
    if k >= 0 {
      RunKeeps(states[..k + 1], events[..k], c);
      RunRests(states[..k + 1], events[..k], c);
      StepRests(states[k], events[k], c);
      assert states[k] == states[..k + 1][k];
    }
  }

  // --------------------------------------------------------------- scheduler

  lemma {:induction false} OneMoreInPool(bufs: seq<DataBuffer>, pool: set<BufferId>, buf: DataBuffer)
    requires Ids(bufs) == multiset(pool) && buf.id !in pool
    ensures Ids(bufs + [buf]) == multiset(pool + {buf.id}) && |pool + {buf.id}| == |pool| + 1
  {
    hide Ids, LogBytes;
    OneMore(bufs, buf);
    assert pool + {buf.id} - {buf.id} == pool;
    LeaveClient(pool + {buf.id}, buf.id);
  }

  method InitBuffer(num: nat, size: nat) returns (bufs: seq<DataBuffer>, ghost pool: set<BufferId>)
    ensures |bufs| == |pool| == num && Ids(bufs) == multiset(pool) && AllClean(bufs)
  {
    assert Ids([]) == multiset{};
    hide LogBytes, Ids;
    bufs, pool := [], {};
    for i := 0 to num
      invariant |bufs| == |pool| == i && Ids(bufs) == multiset(pool) && AllClean(bufs)
      invariant forall id <- pool :: id < i
    {
      var b := DataBuffer(i, seq(size, _ => 0), 0, 0, -1);
      OneMoreInPool(bufs, pool, b);
      CleanConcat(bufs, [b]);
      bufs := bufs + [b];
      pool := pool + {i};
    }
  }

  lemma {:induction false} Regroup<T>(a: seq<T>, x: T, b: seq<T>)
    ensures (a + [x]) + b == a + ([x] + b)
  {
  }

  lemma {:induction false} SortOne(file: FileId, bufs: seq<DataBuffer>, k: nat)
    requires k < |bufs|
    ensures Appends(bufs[k..]) == if bufs[k].ToAppend() then [bufs[k]] + Appends(bufs[k + 1..]) else Appends(bufs[k + 1..])
    ensures Patched(bufs[k..]) ==
            if bufs[k].ToAppend() then Patched(bufs[k + 1..]) else [bufs[k].Reset()] + Patched(bufs[k + 1..])
    ensures Patches(file, bufs[k..]) ==
            if bufs[k].ToAppend() then Patches(file, bufs[k + 1..])
            else [WrittenAt(file, bufs[k].dstOffset, bufs[k].Payload())] + Patches(file, bufs[k + 1..])
  {
    assert bufs[k..][1..] == bufs[k + 1..];
  }

  class IoScheduler {
    const maxBlocks: nat
    const commitThreshold: nat
    const channel: IoChannel
    const curReq: IoRequest
    const disk: Disk
    var file: Option<FileId>
    // idle buffers, the top of the stack last
    var buffers: seq<DataBuffer>
    // buffers to be committed
    var data: seq<DataBuffer>
    // the batch that is being written
    var dataWritten: seq<DataBuffer>
    var reportBufAvail: bool

    // the buffers there are, and those in the client's hands
    ghost const pool: set<BufferId>
    ghost var client: set<BufferId>
    ghost var enqueued: seq<Byte>
    ghost var stream: seq<Byte>
    ghost var dropped: nat
    ghost var asked: seq<Patch>

    ghost function View(): SchedState
      reads this, disk
    {
      SchedState(buffers, data, dataWritten, client, disk.trace, enqueued, stream, dropped, asked)
    }

    /** The same with the file, and what the thread wrote of the batch. */
    ghost function Log(): LogState
      reads this, disk, channel, curReq
    {
      LogState(View(), file, if channel.responded then Some(curReq.written) else None)
    }

    ghost function Limits(): Config {
      Config(commitThreshold, maxBlocks, pool)
    }

    ghost predicate Sized() {
      |pool| == maxBlocks && maxBlocks >= 2 && commitThreshold > 0
    }

    /** No batch is in flight. */
    ghost predicate Quiet()
      reads this, channel, disk
    {
      && Sized() && View().Core(pool, 0)
      && dataWritten == [] && channel.state.Idle? && !channel.responded
    }

    ghost predicate Valid()
      reads this, channel, curReq, disk
    {
      Sized() && if dataWritten == [] then Quiet() else InFlight()
    }

    /** A batch, possibly an empty one, is with the channel. */
    ghost predicate InFlight()
      reads this, channel, curReq, disk
    {
      && View().Core(pool, if channel.responded then curReq.written else 0)
      && channel.state.Executing? && channel.curReq == curReq && curReq.dataList == dataWritten
      && curReq.file.Some? && curReq.file == file
    }

    /** An idle channel leaves little in the queue. */
    ghost predicate Settled()
      reads this, channel
    {
      channel.state.Executing? || (|LogBytes(data)| < commitThreshold && |data| < maxBlocks / 2)
    }

    constructor (blockSize: nat, maxNum: nat, threshold: nat)
      requires threshold > 0 && maxNum >= 2
      ensures Valid() && Settled() && fresh(channel) && fresh(curReq) && fresh(disk)
      ensures maxBlocks == maxNum == |buffers| && commitThreshold == threshold
      ensures file == None && data == [] && client == {} && disk.trace == [] && enqueued == [] && dropped == 0 && asked == []
    {
      assert Ids([]) == multiset{} && LogBytes([]) == [] && AppendedBytes([]) == [];
      hide Ids, LogBytes, AppendedBytes;
      maxBlocks, commitThreshold := maxNum, threshold;
      channel := new IoChannel();
      curReq := new IoRequest();
      disk := new Disk();
      file, data, dataWritten, reportBufAvail := None, [], [], false;
      client, enqueued, stream, dropped, asked := {}, [], [], 0, [];
      var bufs, ids := InitBuffer(maxNum, blockSize);
      buffers := bufs;
      pool := ids;
    }

    method FreeBuffer(buf: DataBuffer)
      modifies this`buffers
      ensures buffers == old(buffers) + [buf.Reset()]
    {
      buffers := buffers + [buf.Reset()];
    }

    /** Writes the queued buffers that go to an offset, and frees them. */
    method ProcessWriteOffset()
      requires file.Some? && dataWritten == [] && channel.state.Idle?
      modifies this`data, this`buffers, disk
      ensures View() == old(View()).WriteOffsets(file.value)
    {
      ghost var all, trace, free := data, disk.trace, buffers;
      ghost var k := 0;
      assert all[0..] == all;
      assert Appends([]) == [] && Patched([]) == [] && Patches(file.value, []) == [];
      hide Appends, Patched, Patches;
      var i := 0;
      while i < |data|
        invariant i <= |data| && k <= |all| && data[i..] == all[k..]
        invariant data[..i] + Appends(all[k..]) == Appends(all)
        invariant buffers + Patched(all[k..]) == free + Patched(all)
        invariant disk.trace + Patches(file.value, all[k..]) == trace + Patches(file.value, all)
        decreases |data| - i
      {
        var buf := data[i];
        assert buf == all[k..][0] == all[k];
        SortOne(file.value, all, k);
        if !buf.ToAppend() {
          data := data[..i] + data[i + 1..];
          var e := WrittenAt(file.value, buf.dstOffset, buf.Payload());
          Regroup(disk.trace, e, Patches(file.value, all[k + 1..]));
          Regroup(buffers, buf.Reset(), Patched(all[k + 1..]));
          disk.trace := disk.trace + [e];
          FreeBuffer(buf);
        } else {
          Regroup(data[..i], buf, Appends(all[k + 1..]));
          assert data[..i + 1] == data[..i] + [buf];
          i := i + 1;
        }
        k := k + 1;
      }
      assert all[k..] == [];
    }

    /** Hands the whole queue to the channel as one batch. */
    method RequestWrite()
      requires channel.state.Idle?
      modifies this`data, this`dataWritten, channel, curReq`file, curReq`dataList
      ensures View() == old(View()).Start()
      ensures channel.state.Executing? && channel.responded == old(channel.responded) && channel.curReq == curReq
      ensures curReq.file == file && curReq.dataList == dataWritten
    {
      dataWritten := dataWritten + data;
      data := [];
      curReq.file := file;
      curReq.dataList := dataWritten;
      var _ := channel.Request(curReq, true);
    }

    /** Commits the queue if there is enough in it. */
    method CommitData()
      requires Quiet() && file.Some?
      modifies this`data, this`buffers, this`dataWritten, disk, channel, curReq`file, curReq`dataList
      ensures Valid() && Settled() && !channel.responded
      ensures View() == old(View()).Commit(file.value, commitThreshold, maxBlocks)
      ensures channel.state.Executing? <==> CallsForCommit(old(data), Limits())
    {
      EmptyHasNone(View(), pool);
      hide SchedState.Core, LogBytes, Ids;
      CommitKeepsCore(View(), file.value, commitThreshold, maxBlocks, pool);
      CommitsBytes(View(), pool);
      TotalLenIsBytes(Appends(data));
      ProcessWriteOffset();
      var size := 0;
      for i := 0 to |data|
        invariant size + TotalLen(data[i..]) == TotalLen(data)
      {
        assert data[i..][1..] == data[i + 1..];
        size := size + data[i].dataLen;
      }
      assert size == TotalLen(data);
      if size < commitThreshold && |data| < maxBlocks / 2 {
        return;
      }
      RequestWrite();
    }

    /** Commits whatever is queued. */
    method CommitAllData()
      requires Quiet() && file.Some?
      modifies this`data, this`buffers, this`dataWritten, disk, channel, curReq`file, curReq`dataList
      ensures View() == old(View()).WriteOffsets(file.value).Start()
      ensures View().Core(pool, 0)
      ensures channel.state.Executing? && !channel.responded && channel.curReq == curReq
      ensures curReq.file == file && curReq.dataList == dataWritten
    {
      WriteOffsetsKeepsCore(View(), file.value, pool, 0);
      StartKeepsCore(View().WriteOffsets(file.value), pool);
      ProcessWriteOffset();
      RequestWrite();
    }

    method GetFreeBuffer() returns (buf: Option<DataBuffer>)
      requires Valid()
      modifies this`buffers, this`reportBufAvail, this`client
      ensures Valid()
      ensures buf.Some? <==> old(buffers) != []
      ensures buf.Some? ==> old(View()).free != [] && View() == old(View()).Take() && reportBufAvail == old(reportBufAvail)
      ensures buf.Some? ==> buf.value == old(buffers)[|old(buffers)| - 1] && buf.value.id !in old(client)
      ensures buf.None? ==> View() == old(View()) && reportBufAvail
      ensures buf.None? && Settled() && |client| <= maxBlocks / 2 ==> channel.state.Executing?
    {
      hide LogBytes, Ids, SchedState.Core;
      if |buffers| > 0 {
        TakeKeepsCore(View(), pool, if channel.responded then curReq.written else 0);
        var top := buffers[|buffers| - 1];
        buf := Some(top);
        buffers := buffers[..|buffers| - 1];
        client := client + {top.id};
      } else {
        if Settled() && |client| <= maxBlocks / 2 {
          NoFreeBufferMeansWriting(View(), pool, if channel.responded then curReq.written else 0);
        }
        buf := None;
        reportBufAvail := true;
      }
    }

    /** The client hands a buffer back unused. */
    method GiveBackBuffer(buf: DataBuffer)
      requires Valid() && buf.id in client
      modifies this`buffers, this`client
      ensures Valid() && View() == old(View()).GiveBack(buf)
    {
      hide LogBytes, Ids, SchedState.Core;
      GiveBackKeepsCore(View(), buf, pool, if channel.responded then curReq.written else 0);
      FreeBuffer(buf);
      client := client - {buf.id};
    }

    method Enqueue(buf: DataBuffer) returns (ret: int)
      requires Valid() && file.Some? && buf.id in client && buf.Valid()
      modifies this, disk, channel, curReq`file, curReq`dataList
      ensures Valid() && Settled() && file == old(file) && ret == 0
      ensures var queued := old(View()).Enqueue(buf);
        View() == if old(dataWritten) == [] then queued.Commit(file.value, commitThreshold, maxBlocks) else queued
      ensures Log() == old(Log()).Enqueue(buf, Limits())
    {
      hide LogBytes, Ids, SchedState.Core;
      EnqueueKeepsCore(View(), buf, pool, if channel.responded then curReq.written else 0);
      data := data + [buf];
      client := client - {buf.id};
      enqueued := enqueued + LogBytes([buf]);
      stream := stream + LogBytes([buf]);
      asked := asked + Asks([buf]);
      if |dataWritten| == 0 {
        CommitData();
      }
      return 0;
    }

    /** The I/O thread takes the batch up and writes some prefix of it, or fails. */
    method ThreadStep(outcome: int)
      requires Valid() && channel.state.Executing? && !channel.responded
      modifies channel`responded, curReq`written, curReq`errCode, disk
      ensures Valid() && channel.responded && curReq.written == WrittenOf(outcome, |LogBytes(dataWritten)|)
      ensures View() == old(View()).ThreadWrote(file.value, curReq.written)
      ensures Log() == old(Log()).ThreadWrites(outcome)
    {
      assert AllAppend(dataWritten);
      hide LogBytes, Ids, SchedState.Core;
      ThreadWroteKeepsCore(View(), file.value, WrittenOf(outcome, |LogBytes(dataWritten)|), pool);
      channel.DoIo(disk, outcome);
    }

    /** Takes the finished part of the batch out and puts the rest back in the queue. */
    method ProcessIoResult()
      requires View().Core(pool, curReq.written)
      modifies this`buffers, this`data, this`dataWritten, this`stream, this`dropped
      ensures View() == old(View()).Settle(curReq.written)
      ensures View().Core(pool, 0) && dataWritten == []
    {
      hide LogBytes, Ids, SchedState.Core;
      SettleKeepsCore(View(), curReq.written, pool);
      if curReq.written > 0 {
        KeepUnwritten(curReq.written);
      } else {
        stream := CutOut(stream, |LogBytes(dataWritten)|, |LogBytes(data)|);
        dropped := dropped + |LogBytes(dataWritten)|;
        FreeAll(dataWritten);
      }
      dataWritten := [];
    }

    /** The loop over a batch of which len > 0 bytes were written. */
    method KeepUnwritten(len: nat)
      requires len <= |LogBytes(dataWritten)|
      modifies this`buffers, this`data, this`dataWritten
      ensures buffers == old(buffers) + Finished(old(dataWritten), len)
      ensures data == Unfinished(old(dataWritten), len) + old(data)
    {
      ghost var batch, free := dataWritten, buffers;
      var left: nat := len;
      var i := 0;
      while i < |dataWritten|
        invariant i <= |dataWritten| && dataWritten == batch && data == old(data)
        invariant left >= 0 && buffers + Finished(batch[i..], left) == free + Finished(batch, len)
        invariant Unfinished(batch[i..], left) == Unfinished(batch, len)
      {
        var buf := dataWritten[i];
        assert batch[i..][0] == buf && batch[i..][1..] == batch[i + 1..];
        if left >= buf.dataLen {
          left := left - buf.dataLen;
          FreeBuffer(buf);
          i := i + 1;
        } else {
          dataWritten := dataWritten[i := buf.Advance(left)];
          assert dataWritten[i..] == [buf.Advance(left)] + batch[i + 1..];
          break;
        }
      }
      if i < |dataWritten| {
        data := dataWritten[i..] + data;
      }
    }

    method FreeAll(bufs: seq<DataBuffer>)
      modifies this`buffers
      ensures buffers == old(buffers) + ResetAll(bufs)
    {
      for i := 0 to |bufs|
        invariant buffers + ResetAll(bufs[i..]) == old(buffers) + ResetAll(bufs)
      {
        assert bufs[i..][1..] == bufs[i + 1..];
        FreeBuffer(bufs[i]);
      }
    }

    method Discard()
      requires Valid()
      modifies this`buffers, this`data, this`stream, this`dropped, this`asked
      ensures Valid() && Settled() && data == []
      ensures |LogBytes(old(data))| <= |old(stream)| && View() == old(View()).Discard()
    {
      hide LogBytes, Ids, SchedState.Core;
      DiscardKeepsCore(View(), pool, if channel.responded then curReq.written else 0);
      stream := CutOut(stream, |LogBytes(data)|, 0);
      asked := CutEnd(asked, |Asks(data)|);
      dropped := dropped + |LogBytes(data)|;
      FreeAll(data);
      data := [];
    }

    /** The answer of the thread arrived: the batch is settled, the client is told and
        may flush, close, open or discard, and then more is committed if there is a file. */
    method IoResultCallback(ops: seq<CallbackOp>) returns (fileWritten: Option<FileId>, err: int, bufAvail: bool)
      requires Valid() && channel.responded
      modifies this, disk, channel, curReq
      ensures Valid() && (file.Some? ==> Settled())
      ensures fileWritten == old(file) && err == old(curReq.errCode)
      ensures Log() == old(Log()).Answer(ops, Limits())
      ensures AnswerSucceeds(old(Log()), ops) ==> stream == old(stream) && dropped == old(dropped)
      ensures client == old(client) && enqueued == old(enqueued)
      ensures bufAvail ==> old(reportBufAvail) && !reportBufAvail && buffers != []
      ensures !bufAvail && buffers != [] ==> !reportBufAvail
    {
      assert Log().Inv(pool);
      AnswerKeeps(Log(), ops, Limits());
      hide SchedState.Core, LogBytes, LogState.Answer, AnswerSucceeds, LogState.Inv, LogState.Rests;
      fileWritten, err := SettleAndGoOn(ops);
      bufAvail := ReportBufAvail();
    }

    method SettleAndGoOn(ops: seq<CallbackOp>) returns (fileWritten: Option<FileId>, err: int)
      requires Valid() && channel.responded
      modifies this, disk, channel, curReq
      ensures Valid() && (file.Some? ==> Settled()) && Log() == old(Log()).Answer(ops, Limits())
      ensures fileWritten == old(file) && err == old(curReq.errCode)
      ensures client == old(client) && enqueued == old(enqueued) && reportBufAvail == old(reportBufAvail)
    {
      hide SchedState.Core, LogBytes, LogState.Commit, LogState.ReactAll, LogState.Settled;
      fileWritten, err := TakeAnswer();
      ClientCallback(ops);
      CommitIfOpen();
    }

    method TakeAnswer() returns (fileWritten: Option<FileId>, err: int)
      requires Valid() && channel.responded
      modifies this`buffers, this`data, this`dataWritten, this`stream, this`dropped, channel
      ensures Quiet() && Log() == old(Log()).Settled()
      ensures fileWritten == old(file) && err == curReq.errCode
    {
      assert dataWritten != [];
      hide SchedState.Core, LogBytes, SchedState.Settle;
      var req := channel.OnIoDone();
      ProcessIoResult();
      fileWritten, err := req.file, req.errCode;
    }

    method CommitIfOpen()
      requires Quiet()
      modifies this`data, this`buffers, this`dataWritten, disk, channel, curReq`file, curReq`dataList
      ensures Valid() && (file.Some? ==> Settled()) && Log() == old(Log()).Commit(Limits())
    {
      hide SchedState.Core, LogBytes, SchedState.Commit;
      if file.Some? {
        CommitData();
      }
    }

    method ClientCallback(ops: seq<CallbackOp>)
      requires Quiet()
      modifies this`file, this`buffers, this`data, this`dataWritten, this`stream, this`dropped, this`asked, channel, curReq, disk
      ensures Quiet() && Log() == old(Log()).ReactAll(ops)
      ensures client == old(client) && enqueued == old(enqueued)
    {
      for i := 0 to |ops|
        invariant Quiet() && Log().ReactAll(ops[i..]) == old(Log()).ReactAll(ops)
        invariant client == old(client) && enqueued == old(enqueued)
      {
        assert ops[i..][0] == ops[i] && ops[i..][1..] == ops[i + 1..];
        React(ops[i]);
      }
    }

    method React(op: CallbackOp)
      requires Quiet()
      modifies this`file, this`buffers, this`data, this`dataWritten, this`stream, this`dropped, this`asked, channel, curReq, disk
      ensures Quiet() && Log() == old(Log()).React(op)
    {
      hide SchedState.Core, LogBytes, LogState.FlushQueue, SchedState.Discard;
      match op {
        case CloseFile => file := None;
        case OpenFile(f) => file := Some(f);
        case DiscardQueue => Discard();
        case FlushFile(outcome) =>
          if file.Some? {
            FlushQueue(outcome);
          }
      }
    }

    method ReportBufAvail() returns (bufAvail: bool)
      modifies this`reportBufAvail
      ensures bufAvail <==> old(reportBufAvail) && buffers != []
      ensures reportBufAvail == (old(reportBufAvail) && !bufAvail)
    {
      bufAvail := reportBufAvail && |buffers| > 0;
      if bufAvail {
        reportBufAvail := false;
      }
    }

    /** Waits for the batch in flight. */
    method WaitBatch(outcome: int)
      requires Sized() && InFlight()
      modifies channel, curReq`written, curReq`errCode, disk
      ensures channel.state.Idle? && !channel.responded && View().Core(pool, curReq.written)
      ensures curReq.written == if old(channel.responded) then old(curReq.written) else WrittenOf(outcome, |LogBytes(dataWritten)|)
      ensures curReq.written <= |LogBytes(old(View()).batch)|
      ensures View() == if old(channel.responded) then old(View()) else old(View()).ThreadWrote(file.value, curReq.written)
    {
      ghost var n := if channel.responded then curReq.written else WrittenOf(outcome, |LogBytes(dataWritten)|);
      assert AllAppend(dataWritten) && n <= |LogBytes(dataWritten)|;
      hide SchedState.Core, LogBytes, AppendedBytes;
      if !channel.responded {
        ThreadWroteKeepsCore(View(), file.value, n, pool);
      }
      channel.WaitIo(disk, outcome);
    }

    /** Waits for the batch in flight and settles it. */
    method WaitAndSettle(outcome: int)
      requires Sized() && InFlight()
      modifies this`buffers, this`data, this`dataWritten, this`stream, this`dropped
      modifies channel, curReq`written, curReq`errCode, disk
      ensures Quiet() && Log() == old(Log()).Await(outcome)
    {
      hide SchedState.Core, LogBytes, AppendedBytes, SchedState.Settle;
      WaitBatch(outcome);
      ProcessIoResult();
    }

    method Close(outcome: int)
      requires Valid()
      modifies this, channel, curReq`written, curReq`errCode, disk
      ensures Valid() && Quiet() && Log() == old(Log()).Close(outcome)
    {
      hide SchedState.Core, LogBytes, LogState.Await;
      if |dataWritten| > 0 {
        WaitAndSettle(outcome);
        WriteOffsetsKeepsCore(View(), file.value, pool, 0);
        ProcessWriteOffset();
      }
      file := None;
    }

    /** Writes the whole queue and waits for the outcome. */
    method FlushQueue(outcome: int)
      requires Quiet() && file.Some?
      modifies this`buffers, this`data, this`dataWritten, this`stream, this`dropped, channel, curReq, disk
      ensures Quiet() && Log() == old(Log()).FlushQueue(outcome)
    {
      hide SchedState.Core, LogBytes, AppendedBytes, SchedState.Settle, LogState.Await, SchedState.WriteOffsets;
      if |data| > 0 {
        CommitAllData();
        WaitAndSettle(outcome);
      }
    }

    /** Waits for the batch in flight, then writes the whole queue and waits again.
        If no write falls short, the whole stream is on the disk. */
    method Flush(outcome1: int, outcome2: int) returns (bufAvail: bool)
      requires Valid()
      modifies this, channel, curReq, disk
      ensures Valid() && Log() == old(Log()).Flush(outcome1, outcome2)
      ensures file == old(file) && client == old(client) && enqueued == old(enqueued)
      ensures file.Some? ==> Quiet()
      ensures (file.Some? && (old(channel.responded) ==> old(curReq.written) > 0)
               && outcome1 >= |old(stream)| && outcome2 >= |old(stream)|) ==>
        data == [] && AppendedBytes(disk.trace) == stream == old(stream) && dropped == old(dropped)
    {
      assert Log().Inv(pool);
      WholeFlush(Log(), outcome1, outcome2, pool);
      hide SchedState.Core, LogBytes, AppendedBytes, LogState.Flush, LogState.Inv;
      FlushAll(outcome1, outcome2);
      bufAvail := ReportBufAvail();
    }

    method FlushAll(outcome1: int, outcome2: int)
      requires Valid()
      modifies this`buffers, this`data, this`dataWritten, this`stream, this`dropped, channel, curReq, disk
      ensures Valid() && Log() == old(Log()).Flush(outcome1, outcome2)
      ensures file.Some? ==> Quiet()
    {
      hide SchedState.Core, LogBytes, LogState.Await, LogState.FlushQueue;
      if file.Some? {
        if |dataWritten| > 0 {
          WaitAndSettle(outcome1);
        }
        FlushQueue(outcome2);
      }
    }

    method Open(f: FileId)
      requires Valid() && channel.state.Idle?
      modifies this`file
      ensures Valid() && file == Some(f) && View() == old(View())
    {
      hide SchedState.Core;
      file := Some(f);
    }
  }
}
