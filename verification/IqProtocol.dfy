/** Saving WCDMA I/Q data: the main thread and the storage thread, joined by two
    first-in-first-out byte channels and one mutex, as a state machine over the
    steps that either of them takes. */
module IqProtocol {
  import opened Basics

  /** The most the storage thread writes between two looks at its channel. */
  const SAVE_BLOCK: nat := 10485760

  datatype Command = Exit | PauseSaving | Save

  datatype Response = Paused | Saved

  datatype IqState = IqsIdle | IqsWaiting | IqsSaving | IqsPaused

  /** Where the main thread is. In AwaitPaused it reads responses and does nothing
      else, on behalf of `pause` or of `clear_iq_files`. */
  datatype MainPc =
    | EventLoop
    | CreatingFile
    | SendingSave
    | CountingSaved
    | AwaitPaused(clearing: bool)
    | Joining

  /** Where the storage thread is. */
  datatype ThreadPc =
    | Gone
    | Polling
    | ReplyPaused
    | GetBufInfo
    | WantLock(len: nat)
    | SaveLoop(len: nat, remain: nat)
    | LookForCommand(len: nat, remain: nat)
    | LoopDone(len: nat, remain: nat, cmd: Option<Command>)
    | SendResult(cmd: Option<Command>)

  datatype Holder = Nobody | MainThread | StorageThread

  datatype Iq = Iq(
    state: IqState,
    main: MainPc,
    thread: ThreadPc,
    commands: seq<Command>,
    responses: seq<Response>,
    mutex: Holder,
    // the handler of /dev/iq_mem: known to the multiplexer, and polled for input
    registered: bool,
    polled: bool,
    // the segment file at hand, what is written to it, and m_saved_size
    segment: bool,
    written: nat,
    savedSize: int,
    // history
    counted: seq<int>,
    pausesAsked: nat,
    pausesSeen: nat,
    wrongResponse: bool)

  datatype Step =
    // main thread
    | Start
    | IqData
    | FileCreated(ok: bool)
    | SaveSent(ok: bool)
    | NotifierInput
    | CountSaved
    | Pause
    | Resume
    | StorageInactive
    | WaitResponse
    | Stop
    | Join
    // storage thread
    | ReadCommand
    | AnswerPause
    | BufInfo(ok: bool, size: nat)
    | LockForSave
    | WriteBlock(expired: bool, n: int)
    | EndOfData
    | CheckCommand
    | LeaveLoop
    | Finish

  function BlockLen(remain: nat): nat {
    if remain > SAVE_BLOCK then SAVE_BLOCK else remain
  }

  ghost predicate Enabled(q: Iq, s: Step) {
    match s
    case Start => q.main.EventLoop? && q.state.IqsIdle?
    case IqData => q.main.EventLoop? && q.polled && !q.state.IqsIdle? && q.mutex.Nobody?
    case FileCreated(_) => q.main.CreatingFile?
    case SaveSent(_) => q.main.SendingSave?
    case NotifierInput => q.main.EventLoop? && !q.state.IqsIdle? && q.responses != []
    case CountSaved => q.main.CountingSaved? && q.mutex.Nobody?
    case Pause => q.main.EventLoop?
    case Resume => q.main.EventLoop?
    case StorageInactive => q.main.EventLoop?
    case WaitResponse => q.main.AwaitPaused? && q.responses != []
    case Stop => q.main.EventLoop?
    case Join => q.main.Joining? && q.thread.Gone?
    case ReadCommand => q.thread.Polling? && q.commands != []
    case AnswerPause => q.thread.ReplyPaused?
    case BufInfo(_, _) => q.thread.GetBufInfo?
    case LockForSave => q.thread.WantLock? && q.mutex.Nobody?
    case WriteBlock(_, n) => q.thread.SaveLoop? && q.thread.remain > 0 && -1 <= n <= BlockLen(q.thread.remain)
    case EndOfData => q.thread.SaveLoop? && q.thread.remain == 0
    case CheckCommand => q.thread.LookForCommand?
    case LeaveLoop => q.thread.LoopDone?
    case Finish => q.thread.SendResult?
  }

  /** Adds the size saved to the segment file's record, and lets go of the file. */
  function CountSegment(q: Iq): Iq {
    if q.segment then q.(counted := q.counted + [q.savedSize], segment := false)
    else q
  }

  function Apply(q: Iq, s: Step): Iq
    requires Enabled(q, s)
  {
    match s
    case Start =>
      q.(state := IqsWaiting, thread := Polling, commands := [], responses := [],
         registered := true, polled := q.polled || !q.registered)
    case IqData => q.(main := CreatingFile, mutex := MainThread)
    case FileCreated(ok) =>
      if ok then q.(main := SendingSave, mutex := Nobody, segment := true, written := 0)
      else q.(main := EventLoop, mutex := Nobody)
    case SaveSent(ok) =>
      if ok then q.(main := EventLoop, state := IqsSaving, commands := q.commands + [Save], polled := false)
      else q.(main := EventLoop, segment := false)
    case NotifierInput =>
      var q' := q.(responses := q.responses[1..]);
      if q.responses[0].Saved? && q.state.IqsSaving? then q'.(main := CountingSaved)
      else q'.(wrongResponse := true)
    case CountSaved => CountSegment(q).(main := EventLoop, state := IqsWaiting, polled := true)
    case Pause =>
      (match q.state
       case IqsSaving =>
         q.(main := AwaitPaused(false), polled := false, commands := q.commands + [PauseSaving],
            pausesAsked := q.pausesAsked + 1)
       case IqsWaiting => q.(state := IqsPaused, polled := false)
       case _ => q)
    case Resume => if q.state.IqsPaused? then q.(state := IqsWaiting, polled := true) else q
    case StorageInactive =>
      if q.state.IqsSaving? then
        q.(main := AwaitPaused(true), commands := q.commands + [PauseSaving], pausesAsked := q.pausesAsked + 1)
      else q
    case WaitResponse =>
      var q' := q.(responses := q.responses[1..]);
      if q.responses[0].Saved? then q'
      else
        var seen := q'.(main := EventLoop, pausesSeen := q.pausesSeen + 1);
        if q.main.clearing then seen.(state := IqsWaiting, polled := true, segment := false)
        else CountSegment(seen).(state := IqsPaused)
    case Stop =>
      if q.state.IqsIdle? then q else q.(main := Joining, commands := q.commands + [Exit])
    case Join =>
      CountSegment(q).(main := EventLoop, state := IqsIdle, commands := [], responses := [])
    case ReadCommand =>
      q.(commands := q.commands[1..],
         thread := match q.commands[0]
                   case Exit => Gone
                   case PauseSaving => ReplyPaused
                   case Save => GetBufInfo)
    case AnswerPause => q.(thread := Polling, responses := q.responses + [Paused])
    case BufInfo(ok, size) =>
      if ok then q.(thread := WantLock(size)) else q.(thread := SendResult(None), savedSize := 0)
    case LockForSave => q.(thread := SaveLoop(q.thread.len, q.thread.len), mutex := StorageThread)
    case WriteBlock(expired, n) =>
      var len, remain := q.thread.len, q.thread.remain;
      if expired then q.(thread := LoopDone(len, remain, None))
      else
        var left := if n > 0 then remain - n else remain;
        q.(written := q.written + remain - left,
           thread := if n != BlockLen(remain) then LoopDone(len, left, None) else LookForCommand(len, left))
    case EndOfData => q.(thread := LoopDone(q.thread.len, 0, None))
    case CheckCommand =>
      var len, remain := q.thread.len, q.thread.remain;
      if q.commands == [] then q.(thread := SaveLoop(len, remain))
      else
        var c := q.commands[0];
        q.(commands := q.commands[1..],
           thread := if c.Save? then SaveLoop(len, remain) else LoopDone(len, remain, Some(c)))
    case LeaveLoop =>
      q.(thread := SendResult(q.thread.cmd), savedSize := q.thread.len - q.thread.remain, mutex := Nobody)
    case Finish =>
      match q.thread.cmd
      case None => q.(thread := Polling, responses := q.responses + [Saved])
      case Some(c) =>
        if c.Exit? then q.(thread := Gone)
        else q.(thread := Polling, responses := q.responses + [Paused])
  }

  /** Before the first start. */
  const INITIAL: Iq :=
    Iq(IqsIdle, EventLoop, Gone, [], [], Nobody, false, false, false, 0, 0, [], 0, 0, false)

  // -------------------------------------------------------------- invariant

  /** The thread works on a save command and has seen no command since. */
  ghost predicate InSave(t: ThreadPc) {
    || t.GetBufInfo? || t.WantLock? || t.SaveLoop? || t.LookForCommand?
    || (t.LoopDone? && t.cmd.None?) || (t.SendResult? && t.cmd.None?)
  }

  /** The thread is about to answer the given command, seen during a save. */
  ghost predicate LeavingFor(t: ThreadPc, c: Command) {
    (t.LoopDone? || t.SendResult?) && t.cmd == Some(c)
  }

  /** What can be on its way while a save is under way and nothing else was sent. */
  ghost predicate SaveUnderWay(q: Iq, later: seq<Command>) {
    || (q.thread.Polling? && q.commands == [Save] + later && q.responses == [])
    || (InSave(q.thread) && q.commands == later && q.responses == [])
  }

  ghost predicate Channels(q: Iq) {
    match q.main
    case AwaitPaused(_) =>
      && q.state.IqsSaving?
      && (|| SaveUnderWay(q, [PauseSaving])
          || (LeavingFor(q.thread, PauseSaving) && q.commands == [] && q.responses == [])
          || (q.thread.Polling? && q.commands == [PauseSaving] && (q.responses == [] || q.responses == [Saved]))
          || (q.thread.ReplyPaused? && q.commands == [] && (q.responses == [] || q.responses == [Saved]))
          || (q.thread.Polling? && q.commands == [] && (q.responses == [Paused] || q.responses == [Saved, Paused])))
    case Joining =>
      && !q.state.IqsIdle?
      && (|| (q.state.IqsSaving? && SaveUnderWay(q, [Exit]))
          || (q.state.IqsSaving? && LeavingFor(q.thread, Exit) && q.commands == [] && q.responses == [])
          || (q.thread.Polling? && q.commands == [Exit] && (q.responses == [] || q.responses == [Saved]))
          || (q.thread.Gone? && q.commands == [] && (q.responses == [] || q.responses == [Saved])))
    case CountingSaved => q.state.IqsSaving? && q.thread.Polling? && q.commands == [] && q.responses == []
    case CreatingFile => q.state.IqsWaiting? && Quiet(q)
    case SendingSave => q.state.IqsWaiting? && Quiet(q)
    case EventLoop =>
      match q.state
      case IqsIdle => q.thread.Gone? && q.commands == [] && q.responses == []
      case IqsSaving =>
        || SaveUnderWay(q, [])
        || (q.thread.Polling? && q.commands == [] && q.responses == [Saved])
      case _ => Quiet(q)
  }

  /** Both channels are empty and the storage thread waits for a command. */
  ghost predicate Quiet(q: Iq) {
    q.thread.Polling? && q.commands == [] && q.responses == []
  }

  ghost predicate MutexInv(q: Iq) {
    && (q.mutex.StorageThread? <==> q.thread.SaveLoop? || q.thread.LookForCommand? || q.thread.LoopDone?)
    && (q.mutex.MainThread? <==> q.main.CreatingFile?)
  }

  /** The size to be counted is what the thread wrote, once it is done writing. */
  ghost predicate SizeInv(q: Iq) {
    && (q.segment <==> q.state.IqsSaving? || q.main.SendingSave?)
    && (q.main.SendingSave? || Save in q.commands || q.thread.GetBufInfo? || q.thread.WantLock? ==> q.written == 0)
    && (q.thread.SaveLoop? || q.thread.LookForCommand? || q.thread.LoopDone? ==>
          q.thread.remain <= q.thread.len && q.written == q.thread.len - q.thread.remain)
    && (q.state.IqsSaving? && Save !in q.commands
        && (q.thread.Polling? || q.thread.ReplyPaused? || q.thread.SendResult? || q.thread.Gone?) ==>
          q.savedSize == q.written)
  }

  ghost predicate PollInv(q: Iq) {
    && (q.state.IqsSaving? || q.state.IqsPaused? ==> !q.polled)
    && (!q.state.IqsIdle? || q.polled ==> q.registered)
  }

  ghost predicate Inv(q: Iq) {
    && Channels(q) && MutexInv(q) && SizeInv(q) && PollInv(q)
    && !q.wrongResponse
    && q.pausesAsked == q.pausesSeen + (if q.main.AwaitPaused? then 1 else 0)
  }

  lemma {:induction false} InitInv()
    ensures Inv(INITIAL)
  {
  }

  lemma {:induction false} EventStepKeeps(q: Iq, s: Step)
    requires Inv(q) && Enabled(q, s)
    requires s.Start? || s.IqData? || s.FileCreated? || s.SaveSent? || s.Resume?
    ensures Inv(Apply(q, s))
  {
  }

  lemma {:induction false} ResponseStepKeeps(q: Iq, s: Step)
    requires Inv(q) && Enabled(q, s)
    requires s.NotifierInput? || s.CountSaved? || s.WaitResponse?
    ensures Inv(Apply(q, s))
  {
  }

  lemma {:induction false} CommandStepKeeps(q: Iq, s: Step)
    requires Inv(q) && Enabled(q, s)
    requires s.Pause? || s.StorageInactive? || s.Stop? || s.Join?
    ensures Inv(Apply(q, s))
  {
  }

  lemma {:induction false} ReadCommandKeeps(q: Iq)
    requires Inv(q) && Enabled(q, ReadCommand)
    ensures Inv(Apply(q, ReadCommand))
  {
  }

  lemma {:induction false} SaveStepKeeps(q: Iq, s: Step)
    requires Inv(q) && Enabled(q, s)
    requires s.BufInfo? || s.LockForSave? || s.WriteBlock? || s.EndOfData?
    ensures Inv(Apply(q, s))
  {
  }

  lemma {:induction false} ReplyStepKeeps(q: Iq, s: Step)
    requires Inv(q) && Enabled(q, s)
    requires s.CheckCommand? || s.LeaveLoop? || s.Finish? || s.AnswerPause?
    ensures Inv(Apply(q, s))
  {
  }

  /** Whichever thread runs next, the invariant stays. */
  lemma {:induction false} StepKeeps(q: Iq, s: Step)
    requires Inv(q) && Enabled(q, s)
    ensures Inv(Apply(q, s))
  {
    match s
    case Start | IqData | FileCreated(_) | SaveSent(_) | Resume => EventStepKeeps(q, s);
    case NotifierInput | CountSaved | WaitResponse => ResponseStepKeeps(q, s);
    case Pause | StorageInactive | Stop | Join => CommandStepKeeps(q, s);
    case ReadCommand => ReadCommandKeeps(q);
    case BufInfo(_, _) | LockForSave | WriteBlock(_, _) | EndOfData => SaveStepKeeps(q, s);
    case CheckCommand | LeaveLoop | Finish | AnswerPause => ReplyStepKeeps(q, s);
  }

  // -------------------------------------------------------------------- runs

  /** A run under some interleaving of the two threads. */
  ghost predicate Run(q: Iq, steps: seq<Step>, r: Iq)
    decreases steps
  {
    if steps == [] then r == q
    else Enabled(q, steps[0]) && Run(Apply(q, steps[0]), steps[1..], r)
  }

  lemma {:induction false} RunKeeps(q: Iq, steps: seq<Step>, r: Iq)
    requires Inv(q) && Run(q, steps, r)
    ensures Inv(r)
    decreases steps
  {
    if steps != [] {
      StepKeeps(q, steps[0]);
      RunKeeps(Apply(q, steps[0]), steps[1..], r);
    }
  }

  // ----------------------------------------------------------- sizes counted

  /** The step ends a clear of the I/Q files, which lets go of the file at hand. */
  ghost predicate Clears(q: Iq, s: Step) {
    s.WaitResponse? && q.main == AwaitPaused(true) && q.responses != [] && q.responses[0].Paused?
  }

  /** The size of the file at hand, if there is one. */
  function AtHand(q: Iq): seq<nat> {
    if q.state.IqsSaving? then [q.written] else []
  }

  function Listed(open: Option<nat>): seq<nat> {
    match open
    case None => []
    case Some(n) => [n]
  }

  /** The sizes of the files that are not cleared, told from what is asked of the storage
      thread and what its write calls take: a file begins when the command to save is sent,
      and what is written from then on is its. `open` is the size of the last one so far. */
  ghost function FileSizes(q: Iq, steps: seq<Step>, open: Option<nat>): seq<nat>
    decreases steps
  {
    if steps == [] || !Enabled(q, steps[0]) then Listed(open)
    else
      var r := Apply(q, steps[0]);
      match steps[0]
      case SaveSent(true) => Listed(open) + FileSizes(r, steps[1..], Some(0))
      case WriteBlock(expired, n) =>
        FileSizes(r, steps[1..], if open.Some? && !expired && n > 0 then Some(open.value + n) else open)
      case _ => FileSizes(r, steps[1..], if Clears(q, steps[0]) then None else open)
  }

  function SavesSent(steps: seq<Step>): nat {
    if steps == [] then 0 else (if steps[0] == SaveSent(true) then 1 else 0) + SavesSent(steps[1..])
  }

  ghost function FilesCleared(q: Iq, steps: seq<Step>): nat
    decreases steps
  {
    if steps == [] || !Enabled(q, steps[0]) then 0
    else (if Clears(q, steps[0]) then 1 else 0) + FilesCleared(Apply(q, steps[0]), steps[1..])
  }

  /** The file at hand is counted, with what was written to it, by the steps that end a
      save, a pause or the thread while there is one, and by no other step. */
  lemma {:induction false} CountedWhenDone(q: Iq, s: Step)
    requires Inv(q) && Enabled(q, s)
    ensures Apply(q, s).counted ==
      if q.segment && (s.CountSaved? || s.Join? || (s.WaitResponse? && q.main == AwaitPaused(false) && q.responses[0].Paused?))
      then q.counted + [q.written] else q.counted
  {
  }

  /** The files so far are those counted and the one at hand. */
  ghost predicate SizesInv(q: Iq, before: seq<nat>, open: Option<nat>) {
    && before + Listed(open) == q.counted + AtHand(q)
    && (q.state.IqsSaving? ==> open == Some(q.written))
  }

  lemma {:induction false} SizesStep(q: Iq, s: Step, before: seq<nat>, open: Option<nat>)
    requires Inv(q) && Enabled(q, s) && SizesInv(q, before, open)
    ensures s == SaveSent(true) ==> SizesInv(Apply(q, s), before + Listed(open), Some(0))
    ensures s.WriteBlock? ==>
      var more := if !s.expired && s.n > 0 then s.n else 0;
      q.state.IqsSaving? && open.Some? && SizesInv(Apply(q, s), before, Some(open.value + more))
    ensures s != SaveSent(true) && !s.WriteBlock? ==>
      SizesInv(Apply(q, s), before, if Clears(q, s) then None else open)
  {
    CountedWhenDone(q, s);
    if q.state.IqsSaving? {
      assert (before + Listed(open))[..|before|] == before;
      assert (q.counted + AtHand(q))[..|q.counted|] == q.counted;
    }
  }

  lemma {:induction false} SizesRun(q: Iq, steps: seq<Step>, r: Iq, before: seq<nat>, open: Option<nat>)
    requires Inv(q) && Run(q, steps, r) && SizesInv(q, before, open)
    ensures before + FileSizes(q, steps, open) == r.counted + AtHand(r)
    decreases steps
  {
    hide Apply, Inv, Enabled, Clears, AtHand, Listed;
    if steps != [] {
      var s := steps[0];
      var q' := Apply(q, s);
      StepKeeps(q, s);
      SizesStep(q, s, before, open);
      match s
      case SaveSent(true) =>
        SizesRun(q', steps[1..], r, before + Listed(open), Some(0));
      case WriteBlock(expired, n) =>
        SizesRun(q', steps[1..], r, before, if !expired && n > 0 then Some(open.value + n) else open);
      case _ =>
        SizesRun(q', steps[1..], r, before, if Clears(q, s) then None else open);
    }
  }

  lemma {:induction false} NumbersStep(q: Iq, s: Step)
    requires Inv(q) && Enabled(q, s)
    ensures var r := Apply(q, s);
      |r.counted| + |AtHand(r)| + (if Clears(q, s) then 1 else 0)
      == |q.counted| + |AtHand(q)| + (if s == SaveSent(true) then 1 else 0)
  {
    CountedWhenDone(q, s);
  }

  lemma {:induction false} NumbersRun(q: Iq, steps: seq<Step>, r: Iq)
    requires Inv(q) && Run(q, steps, r)
    ensures |r.counted| + |AtHand(r)| + FilesCleared(q, steps) == |q.counted| + |AtHand(q)| + SavesSent(steps)
    decreases steps
  {
    hide Apply, Inv, Enabled, Clears, AtHand;
    if steps != [] {
      StepKeeps(q, steps[0]);
      NumbersStep(q, steps[0]);
      NumbersRun(Apply(q, steps[0]), steps[1..], r);
    }
  }

  /** In every interleaving: no response arrives in a wrong state; outside `pause`
      and `clear_iq_files` each pause asked for has had exactly one answer; with
      no save under way both channels are empty and the storage thread waits;
      neither channel ever holds more than two bytes; and the sizes counted, then that of
      the file at hand, are those of the files that were begun and not cleared, in order
      and each with exactly the bytes that its write calls took. */
  lemma {:induction false} ProtocolIsSafe(steps: seq<Step>, r: Iq)
    requires Run(INITIAL, steps, r)
    ensures !r.wrongResponse
    ensures !r.main.AwaitPaused? ==> r.pausesSeen == r.pausesAsked
    ensures r.main.EventLoop? && (r.state.IqsWaiting? || r.state.IqsPaused?) ==> Quiet(r)
    ensures |r.commands| <= 2 && |r.responses| <= 2
    ensures r.counted + AtHand(r) == FileSizes(INITIAL, steps, None)
    ensures |r.counted| + |AtHand(r)| + FilesCleared(INITIAL, steps) == SavesSent(steps)
  {
    InitInv();
    RunKeeps(INITIAL, steps, r);
    SizesRun(INITIAL, steps, r, [], None);
    NumbersRun(INITIAL, steps, r);
    assert [] + FileSizes(INITIAL, steps, None) == FileSizes(INITIAL, steps, None);
  }

  /** `pause` and `clear_iq_files` return with both channels empty, the storage
      thread waiting for a command, and the segment file let go. */
  lemma {:induction false} PauseReturnsQuiet(q: Iq, s: Step)
    requires Inv(q) && Enabled(q, s) && q.main.AwaitPaused? && !Apply(q, s).main.AwaitPaused?
    ensures var r := Apply(q, s);
      && s.WaitResponse? && Quiet(r) && !r.segment && r.mutex.Nobody?
      && r.pausesSeen == q.pausesSeen + 1
      && r.state == (if q.main.clearing then IqsWaiting else IqsPaused)
      && r.polled == q.main.clearing
  {
  }

  /** The step ends the writing before the end of the data: the file has gone, fewer bytes
      were written than a block and than there were left, or a command came. */
  ghost predicate CutsShort(q: Iq, s: Step) {
    || (s.WriteBlock? && q.thread.SaveLoop? && (s.expired || (s.n < q.thread.remain && s.n < SAVE_BLOCK)))
    || (s.CheckCommand? && q.thread.LookForCommand? && q.thread.remain > 0 && q.commands != [])
  }

  /** Some step of the run does. */
  ghost predicate IsCut(q: Iq, steps: seq<Step>)
    decreases steps
  {
    steps != [] && Enabled(q, steps[0]) && (CutsShort(q, steps[0]) || IsCut(Apply(q, steps[0]), steps[1..]))
  }

  ghost predicate CutInv(q: Iq, size: nat, cut: bool) {
    match q.thread
    case WantLock(len) => len == size && !cut
    case SaveLoop(len, _) => len == size && !cut
    case LookForCommand(len, _) => len == size && !cut
    case LoopDone(len, remain, _) => len == size && (cut <==> remain > 0)
    case SendResult(_) => q.savedSize <= size && (cut <==> q.savedSize < size)
    case _ => false
  }

  lemma {:induction false} CutStep(q: Iq, s: Step, size: nat, cut: bool)
    requires Inv(q) && Enabled(q, s) && !s.Finish? && CutInv(q, size, cut)
    ensures CutInv(Apply(q, s), size, cut || CutsShort(q, s))
  {
  }

  lemma {:induction false} CutRun(q: Iq, steps: seq<Step>, r: Iq, size: nat, cut: bool)
    requires Inv(q) && Run(q, steps, r) && Finish !in steps && CutInv(q, size, cut)
    ensures CutInv(r, size, cut || IsCut(q, steps))
    decreases steps
  {
    if steps != [] {
      StepKeeps(q, steps[0]);
      CutStep(q, steps[0], size, cut);
      CutRun(Apply(q, steps[0]), steps[1..], r, size, cut || CutsShort(q, steps[0]));
    }
  }

  /** Of the size that the device tells, the thread has saved all when it sends its result
      exactly if no write fell short, the file did not go, and no command came before the
      last block was written. */
  lemma {:induction false} SavesAllExactly(q: Iq, size: nat, steps: seq<Step>, r: Iq)
    requires Inv(q) && q.thread.GetBufInfo?
    requires Run(Apply(q, BufInfo(true, size)), steps, r) && Finish !in steps && r.thread.SendResult?
    ensures 0 <= r.savedSize <= size
    ensures r.savedSize == size <==> !IsCut(Apply(q, BufInfo(true, size)), steps)
  {
    var q' := Apply(q, BufInfo(true, size));
    StepKeeps(q, BufInfo(true, size));
    CutRun(q', steps, r, size, false);
    RunKeeps(q', steps, r);
  }

  // ---------------------------------------------------------------- progress

  /** The main thread waits for the storage thread: for a response, for the mutex,
      or for its end. */
  ghost predicate Waits(q: Iq) {
    q.main.AwaitPaused? || q.main.Joining? || q.main.CountingSaved?
  }

  /** A step that either thread can take while the main thread waits. */
  ghost predicate Helps(s: Step) {
    || s.ReadCommand? || s.AnswerPause? || s.BufInfo? || s.LockForSave? || s.WriteBlock? || s.EndOfData?
    || s.CheckCommand? || s.LeaveLoop? || s.Finish? || s.WaitResponse? || s.Join? || s.CountSaved?
  }

  /** No deadlock: while the main thread waits, one of the two can go on. */
  lemma {:induction false} WaitingIsNeverStuck(q: Iq) returns (s: Step)
    requires Inv(q) && Waits(q)
    ensures Helps(s) && Enabled(q, s)
  {
    match q.thread
    case Gone => s := Join;
    case Polling =>
      s := if q.commands != [] then ReadCommand
           else if q.responses != [] then WaitResponse else CountSaved;
    case ReplyPaused => s := AnswerPause;
    case GetBufInfo => s := BufInfo(false, 0);
    case WantLock(_) => s := LockForSave;
    case SaveLoop(_, remain) => s := if remain > 0 then WriteBlock(true, 0) else EndOfData;
    case LookForCommand(_, _) => s := CheckCommand;
    case LoopDone(_, _, _) => s := LeaveLoop;
    case SendResult(_) => s := Finish;
  }

  function SavesToCome(q: Iq): nat {
    (if Save in q.commands then 2 else 0) + (if q.thread.GetBufInfo? then 1 else 0)
  }

  function WorkLeft(q: Iq): nat {
    4 * |q.commands| + |q.responses|
    + (match q.thread
       case ReplyPaused => 2
       case WantLock(len) => 3 * len + 9
       case SaveLoop(_, remain) => 3 * remain + 6
       case LookForCommand(_, remain) => 3 * remain + 8
       case LoopDone(_, _, _) => 5
       case SendResult(_) => 4
       case _ => 0)
  }

  ghost predicate Closer(q: Iq, r: Iq) {
    || !Waits(r)
    || SavesToCome(r) < SavesToCome(q)
    || (SavesToCome(r) == SavesToCome(q) && WorkLeft(r) < WorkLeft(q))
  }

  lemma {:induction false} MainGetsCloser(q: Iq, s: Step)
    requires Inv(q) && Waits(q) && Enabled(q, s)
    requires s.WaitResponse? || s.Join? || s.CountSaved? || s.ReadCommand? || s.AnswerPause?
    ensures Closer(q, Apply(q, s))
  {
  }

  lemma {:induction false} SaveGetsCloser(q: Iq, s: Step)
    requires Inv(q) && Waits(q) && Enabled(q, s)
    requires s.BufInfo? || s.LockForSave? || s.WriteBlock? || s.EndOfData?
    ensures Closer(q, Apply(q, s))
  {
    assert q.commands == Apply(q, s).commands;
  }

  lemma {:induction false} ReplyGetsCloser(q: Iq, s: Step)
    requires Inv(q) && Waits(q) && Enabled(q, s)
    requires s.CheckCommand? || s.LeaveLoop? || s.Finish?
    ensures Closer(q, Apply(q, s))
  {
  }

  /** No livelock: each such step ends the wait or brings its end closer, in a
      well-founded order that no size of the data can defeat. */
  lemma {:induction false} WaitingEnds(q: Iq, s: Step)
    requires Inv(q) && Waits(q) && Enabled(q, s)
    ensures Helps(s) && Closer(q, Apply(q, s))
  {
    match s
    case WaitResponse | Join | CountSaved | ReadCommand | AnswerPause => MainGetsCloser(q, s);
    case BufInfo(_, _) | LockForSave | WriteBlock(_, _) | EndOfData => SaveGetsCloser(q, s);
    case CheckCommand | LeaveLoop | Finish => ReplyGetsCloser(q, s);
    case _ => assert false;
  }

  // ------------------------------------------------------ polling the device

  /** Whenever the manager waits for data, /dev/iq_mem is polled; and a handler
      that stayed registered over a stop is still polled at the next start. */
  ghost predicate DataIsSeen(q: Iq) {
    && (q.state.IqsWaiting? ==> q.polled)
    && (q.state.IqsIdle? && q.registered ==> q.polled)
  }

  /** Stopping keeps the handler registered with the events it had: of all steps only the
      end of a stop during a save or a pause makes the data go unseen. */
  lemma {:induction false} StopInSaveLosesData(q: Iq, s: Step)
    requires Inv(q) && Enabled(q, s) && DataIsSeen(q)
    ensures q.state.IqsWaiting? || !s.Join? ==> DataIsSeen(Apply(q, s))
    ensures q.state.IqsSaving? || q.state.IqsPaused? ==>
      (s.Join? <==> !DataIsSeen(Apply(q, s)))
  {
  }

  /** The step ends a stop during a save or a pause. */
  ghost predicate LosesPoll(q: Iq, s: Step) {
    s.Join? && !q.state.IqsWaiting?
  }

  ghost predicate Resumes(q: Iq, s: Step) {
    s.Resume? && q.state.IqsPaused?
  }

  /** Some step of the run ends a stop during a save or a pause, and no later one resumes. */
  ghost predicate Lost(q: Iq, steps: seq<Step>, lost: bool)
    decreases steps
  {
    if steps == [] || !Enabled(q, steps[0]) then lost
    else
      var s := steps[0];
      Lost(Apply(q, s), steps[1..], LosesPoll(q, s) || (lost && !Resumes(q, s)))
  }

  ghost predicate LostInv(q: Iq, lost: bool) {
    if lost then q.registered && !q.polled && !q.state.IqsSaving? && (q.main.EventLoop? || q.main.Joining?)
    else DataIsSeen(q)
  }

  lemma {:induction false} LostStep(q: Iq, s: Step, lost: bool)
    requires Inv(q) && Enabled(q, s) && LostInv(q, lost)
    ensures LostInv(Apply(q, s), LosesPoll(q, s) || (lost && !Resumes(q, s)))
  {
  }

  lemma {:induction false} LostRun(q: Iq, steps: seq<Step>, r: Iq, lost: bool)
    requires Inv(q) && Run(q, steps, r) && LostInv(q, lost)
    ensures Inv(r) && LostInv(r, Lost(q, steps, lost))
    decreases steps
  {
    if steps != [] {
      var s := steps[0];
      StepKeeps(q, s);
      LostStep(q, s, lost);
      LostRun(Apply(q, s), steps[1..], r, LosesPoll(q, s) || (lost && !Resumes(q, s)));
    }
  }

  /** In every run: while the manager waits for data, the device is polled exactly if each
      stop during a save or a pause was followed by a resume from a pause; and before a
      start, the start will find it polled exactly then. */
  lemma {:induction false} DataIsSeenExactly(steps: seq<Step>, r: Iq)
    requires Run(INITIAL, steps, r)
    ensures r.state.IqsWaiting? ==> (r.polled <==> !Lost(INITIAL, steps, false))
    ensures r.state.IqsWaiting? || r.state.IqsIdle? ==> (DataIsSeen(r) <==> !Lost(INITIAL, steps, false))
  {
    InitInv();
    LostRun(INITIAL, steps, r, false);
  }

  /** Every stop of the run ends while the manager waits for data. */
  ghost predicate StopsWhileWaiting(q: Iq, steps: seq<Step>)
    decreases steps
  {
    steps != [] && Enabled(q, steps[0]) ==>
      !LosesPoll(q, steps[0]) && StopsWhileWaiting(Apply(q, steps[0]), steps[1..])
  }

  lemma {:induction false} NothingLost(q: Iq, steps: seq<Step>)
    requires StopsWhileWaiting(q, steps)
    ensures !Lost(q, steps, false)
    decreases steps
  {
    if steps != [] && Enabled(q, steps[0]) {
      NothingLost(Apply(q, steps[0]), steps[1..]);
    }
  }

  lemma {:induction false} StopsWhileWaitingLoseNothing(steps: seq<Step>, r: Iq)
    requires Run(INITIAL, steps, r) && StopsWhileWaiting(INITIAL, steps)
    ensures DataIsSeen(r)
  {
    NothingLost(INITIAL, steps);
    InitInv();
    LostRun(INITIAL, steps, r, false);
  }

  /** No step of the run resumes from a pause. */
  ghost predicate NeverResumes(q: Iq, steps: seq<Step>)
    decreases steps
  {
    steps != [] && Enabled(q, steps[0]) ==>
      !Resumes(q, steps[0]) && NeverResumes(Apply(q, steps[0]), steps[1..])
  }

  lemma {:induction false} StaysLost(q: Iq, steps: seq<Step>)
    requires NeverResumes(q, steps)
    ensures Lost(q, steps, true)
    decreases steps
  {
    if steps != [] && Enabled(q, steps[0]) {
      StaysLost(Apply(q, steps[0]), steps[1..]);
    }
  }

  /** After a stop during a save or a pause no data is seen, however the run goes on, until
      a pause is resumed from; then it is. */
  lemma {:induction false} UnseenUntilResume(q: Iq, steps: seq<Step>, r: Iq)
    requires Inv(q) && Enabled(q, Join) && LosesPoll(q, Join)
    requires Run(Apply(q, Join), steps, r) && NeverResumes(Apply(q, Join), steps)
    ensures !r.polled && !r.state.IqsSaving? && !Enabled(r, IqData)
    ensures Enabled(r, Resume) && r.state.IqsPaused? ==>
      Apply(r, Resume).state.IqsWaiting? && Apply(r, Resume).polled
  {
    StepKeeps(q, Join);
    StaysLost(Apply(q, Join), steps);
    LostRun(Apply(q, Join), steps, r, true);
  }

  /** A run that ends waiting for data that is not polled for. */
  lemma {:induction false} RestartAfterPauseSeesNothing() returns (r: Iq)
    ensures Run(INITIAL, [Start, Pause, Stop, ReadCommand, Join, Start], r)
    ensures r.state.IqsWaiting? && r.main.EventLoop? && !r.polled
  {
    var q1 := Apply(INITIAL, Start);
    var q2 := Apply(q1, Pause);
    var q3 := Apply(q2, Stop);
    var q4 := Apply(q3, ReadCommand);
    var q5 := Apply(q4, Join);
    r := Apply(q5, Start);
    assert Run(r, [], r);
    assert Run(q5, [Start], r);
    assert Run(q4, [Join, Start], r);
    assert Run(q3, [ReadCommand, Join, Start], r);
    assert Run(q2, [Stop, ReadCommand, Join, Start], r);
    assert Run(q1, [Pause, Stop, ReadCommand, Join, Start], r);
  }
}
