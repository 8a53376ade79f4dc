/** A unit of convey work in the hands of a worker: the events that stop it, and the
    three ways of conveying. Files are replaced by the outcomes of their operations. */
module ConveyUnits {

  datatype UnitState =
    | Wait | OnGoing | NoWorkload | SrcVanish | DestVanish | CommonDestVanish
    | CommonDestChange | Clean | Cancelled | Failed | Done

  type Tag = t: int | 0 <= t < 256

  /** autoDest: the destination is chosen by the storage manager. hasDest: the pointer
      to the destination is set. owner: whose unit it is, kept for the proofs. */
  datatype Unit = Unit(
    tag: Tag,
    autoDest: bool,
    src: nat,
    dest: nat,
    state: UnitState,
    hasDest: bool,
    owner: nat)

  const NEW_ITEM := 1
  const STOP := 2
  const VANISH := 3
  const COMMON_DEST_CHANGE := 4
  const CLEAN := 5
  const CANCEL := 6

  /** The kind of an event and the priority it names. */
  function KindOf(event: nat): nat {
    event / 0x1_0000 % 256
  }

  function PriorityOf(event: nat): nat {
    event % 0x1_0000
  }

  lemma {:induction false} PriorityBytes(event: nat)
    ensures event / 256 % 256 * 256 + event % 256 == PriorityOf(event)
  {
  }

  /** What an event means to a unit: None when the unit goes on. */
  datatype Verdict = GoOn | StopIn(state: UnitState)

  function Judge(u: Unit, event: nat): Verdict {
    var kind, priority := KindOf(event), PriorityOf(event);
    if kind == STOP then StopIn(NoWorkload)
    else if kind == CLEAN then StopIn(Clean)
    else if kind == CANCEL && event % 256 == u.tag then StopIn(Cancelled)
    else if kind == VANISH && u.src == priority then StopIn(SrcVanish)
    else if kind == VANISH && u.dest == priority then StopIn(if u.autoDest then CommonDestVanish else DestVanish)
    else if kind == COMMON_DEST_CHANGE && u.autoDest && u.dest != priority then StopIn(CommonDestChange)
    else GoOn
  }

  function Stopped(u: Unit, state: UnitState): Unit {
    u.(state := state, hasDest := u.hasDest && state != CommonDestVanish)
  }

  /** The states in which a worker knows what to do with a unit. */
  predicate Handled(s: UnitState) {
    s != Wait && s != OnGoing
  }

  // ------------------------------------------------------ copying a directory

  /** One turn of the copy loop: what read and write return, and the event seen. */
  datatype CopyTurn = CopyTurn(nr: int, nwr: int, event: nat)

  /** One source file. Its turns end with the end of the file. */
  datatype SourceFile = SourceFile(present: bool, created: bool, readable: bool, turns: seq<CopyTurn>)

  /** How far a file gets before an event, an error or its end stops it. */
  datatype CopyEnd = Ended | Broken | Interrupted(state: UnitState)

  function CopyTurns(u: Unit, turns: seq<CopyTurn>): CopyEnd {
    if turns == [] || turns[0].nr == 0 then Ended
    else if turns[0].nr < 0 || turns[0].nwr != turns[0].nr then Broken
    else match Judge(u, turns[0].event)
      case StopIn(s) => Interrupted(s)
      case GoOn => CopyTurns(u, turns[1..])
  }

  function CopyFile(u: Unit, f: SourceFile): CopyEnd {
    if f.present then Ended
    else if !f.created || !f.readable then Broken
    else CopyTurns(u, f.turns)
  }

  /** The state in which copying a directory leaves a unit. */
  function CopyAll(u: Unit, files: seq<SourceFile>): UnitState {
    if files == [] then Done
    else match CopyFile(u, files[0])
      case Interrupted(s) => s
      case Ended => CopyAll(u, files[1..])
      case Broken => var rest := CopyAll(u, files[1..]); if rest == Done then Failed else rest
  }

  /** The first k turns each read something, wrote all of it, and saw nothing that stops them. */
  ghost predicate GoesThrough(u: Unit, turns: seq<CopyTurn>, k: nat)
    requires k <= |turns|
  {
    forall j :: 0 <= j < k ==> turns[j].nr > 0 && turns[j].nwr == turns[j].nr && Judge(u, turns[j].event).GoOn?
  }

  lemma {:induction false} GoesThroughRest(u: Unit, turns: seq<CopyTurn>, k: nat)
    requires 0 < k <= |turns|
    ensures GoesThrough(u, turns, k) <==>
      turns[0].nr > 0 && turns[0].nwr == turns[0].nr && Judge(u, turns[0].event).GoOn? && GoesThrough(u, turns[1..], k - 1)
  {
    var rest := turns[1..];
    assert forall j :: 0 <= j < k - 1 ==> rest[j] == turns[j + 1];
    assert forall j :: 0 < j < k ==> turns[j] == rest[j - 1];
  }

  /** A file is copied whole exactly if some turn finds its end, and all before it went
      through; it breaks exactly if after such turns one cannot read or not write all. */
  lemma {:induction false} CopyTurnsExactly(u: Unit, turns: seq<CopyTurn>)
    ensures CopyTurns(u, turns).Ended? <==>
      exists k :: 0 <= k <= |turns| && GoesThrough(u, turns, k) && (k < |turns| ==> turns[k].nr == 0)
    ensures CopyTurns(u, turns).Broken? <==>
      exists k :: 0 <= k < |turns| && GoesThrough(u, turns, k)
        && (turns[k].nr < 0 || (turns[k].nr > 0 && turns[k].nwr != turns[k].nr))
  {
    assert GoesThrough(u, turns, 0);
    forall k | 0 < k <= |turns|
      ensures GoesThrough(u, turns, k) <==>
        turns[0].nr > 0 && turns[0].nwr == turns[0].nr && Judge(u, turns[0].event).GoOn? && GoesThrough(u, turns[1..], k - 1)
    {
      GoesThroughRest(u, turns, k);
    }
    if turns != [] && turns[0].nr > 0 && turns[0].nwr == turns[0].nr && Judge(u, turns[0].event).GoOn? {
      var rest := turns[1..];
      CopyTurnsExactly(u, rest);
      hide Judge, GoesThrough;
      forall k | 0 <= k <= |rest| && GoesThrough(u, rest, k) ensures GoesThrough(u, turns, k + 1) {
      }
    }
  }

  lemma {:induction false} JudgeIsHandled(u: Unit, event: nat)
    ensures Judge(u, event).StopIn? ==>
      Handled(Judge(u, event).state) && Judge(u, event).state != Done && Judge(u, event).state != Failed
  {
  }

  lemma {:induction false} CopyTurnsHandled(u: Unit, turns: seq<CopyTurn>)
    ensures var e := CopyTurns(u, turns);
      e.Interrupted? ==> Handled(e.state) && e.state != Done && e.state != Failed
  {
    if turns != [] {
      JudgeIsHandled(u, turns[0].event);
      CopyTurnsHandled(u, turns[1..]);
    }
  }

  /** Every way of copying a directory ends in a state the worker handles; it is Done
      exactly when every file is there whole and no event interrupted the work. */
  lemma {:induction false} CopyAllEnds(u: Unit, files: seq<SourceFile>)
    ensures Handled(CopyAll(u, files))
    ensures CopyAll(u, files) == Done <==> forall i :: 0 <= i < |files| ==> CopyFile(u, files[i]).Ended?
    ensures CopyAll(u, files) == Done <==> forall i :: 0 <= i < |files| ==>
      files[i].present || (files[i].created && files[i].readable && CopyTurns(u, files[i].turns).Ended?)
    ensures CopyAll(u, files) == Failed <==>
      (exists i :: 0 <= i < |files| && CopyFile(u, files[i]).Broken?) &&
      (forall i :: 0 <= i < |files| ==> !CopyFile(u, files[i]).Interrupted?)
  {
    if files != [] {
      var rest := files[1..];
      CopyTurnsHandled(u, files[0].turns);
      CopyAllEnds(u, rest);
      assert forall i :: 0 <= i < |rest| ==> files[i + 1] == rest[i];
      assert forall i :: 0 < i < |files| ==> files[i] == rest[i - 1];
    }
  }

  // ---------------------------------------------- copying to a single log file

  /** What read returns when at most len bytes are asked for. */
  function ReadUpTo(t: CopyTurn, len: nat): int {
    if t.nr > len then len else t.nr
  }

  /** How copying `size` bytes ends; turns run out at the end of the source. */
  function CopySized(u: Unit, size: nat, turns: seq<CopyTurn>): CopyEnd {
    if size == 0 then Ended
    else if turns == [] || turns[0].nr <= 0 || turns[0].nwr != ReadUpTo(turns[0], size) then Broken
    else match Judge(u, turns[0].event)
      case StopIn(s) => Interrupted(s)
      case GoOn => CopySized(u, size - ReadUpTo(turns[0], size), turns[1..])
  }

  function StateOf(e: CopyEnd): UnitState {
    match e
    case Ended => Done
    case Broken => Failed
    case Interrupted(s) => s
  }

  lemma {:induction false} CopySizedEnds(u: Unit, size: nat, turns: seq<CopyTurn>)
    ensures var e := CopySized(u, size, turns);
      e.Interrupted? ==> Handled(e.state) && e.state != Done && e.state != Failed
    decreases turns
  {
    if size > 0 && turns != [] && turns[0].nr > 0 {
      JudgeIsHandled(u, turns[0].event);
      CopySizedEnds(u, size - ReadUpTo(turns[0], size), turns[1..]);
    }
  }

  /** The events that reset the pointer to the destination, which two of the three ways
      follow at their end: the medium of a destination that the storage manager chose
      vanishes, while the source is on another one. */
  predicate DestVanishes(u: Unit, event: nat) {
    KindOf(event) == VANISH && PriorityOf(event) == u.dest && u.autoDest && u.src != u.dest
  }

  lemma {:induction false} NullDestExactly(u: Unit, event: nat)
    ensures Judge(u, event) == StopIn(CommonDestVanish) <==> DestVanishes(u, event)
  {
  }

  /** The bytes that the first k turns read. */
  function ReadBefore(turns: seq<CopyTurn>, k: nat): int
    requires k <= |turns|
  {
    if k == 0 then 0 else turns[0].nr + ReadBefore(turns[1..], k - 1)
  }

  /** In turn k the destination vanishes: the turns before it read and wrote and saw nothing
      that stops them, and the file was not complete before it. */
  ghost predicate VanishesAt(u: Unit, size: nat, turns: seq<CopyTurn>, k: nat)
    requires k < |turns|
  {
    && GoesThrough(u, turns, k) && ReadBefore(turns, k) < size
    && turns[k].nr > 0 && turns[k].nwr == ReadUpTo(turns[k], size - ReadBefore(turns, k))
    && DestVanishes(u, turns[k].event)
  }

  lemma {:induction false} VanishesInRest(u: Unit, size: nat, turns: seq<CopyTurn>, k: nat)
    requires 0 < k < |turns| && turns[0].nr > 0
    ensures VanishesAt(u, size, turns, k) <==>
      && turns[0].nr < size && turns[0].nwr == turns[0].nr && Judge(u, turns[0].event).GoOn?
      && VanishesAt(u, size - turns[0].nr, turns[1..], k - 1)
  {
    GoesThroughRest(u, turns, k);
    if VanishesAt(u, size, turns, k) {
      ReadsAdd(turns[1..], k - 1);
    }
  }

  lemma {:induction false} ReadsAdd(turns: seq<CopyTurn>, k: nat)
    requires k <= |turns| && forall j :: 0 <= j < k ==> turns[j].nr > 0
    ensures ReadBefore(turns, k) >= 0
  {
    if k > 0 {
      ReadsAdd(turns[1..], k - 1);
    }
  }

  /** A copy ends without a destination exactly if it vanishes in one of the turns. */
  lemma {:induction false} CopyLosesDestExactly(u: Unit, size: nat, turns: seq<CopyTurn>)
    ensures CopySized(u, size, turns) == Interrupted(CommonDestVanish) <==>
      exists k :: 0 <= k < |turns| && VanishesAt(u, size, turns, k)
    decreases turns
  {
    if turns == [] {
      return;
    }
    var t, rest := turns[0], turns[1..];
    NullDestExactly(u, t.event);
    assert VanishesAt(u, size, turns, 0) <==>
      0 < size && t.nr > 0 && t.nwr == ReadUpTo(t, size) && DestVanishes(u, t.event);
    if t.nr > 0 {
      forall k | 0 < k < |turns|
        ensures VanishesAt(u, size, turns, k) <==>
          && t.nr < size && t.nwr == t.nr && Judge(u, t.event).GoOn?
          && VanishesAt(u, size - t.nr, rest, k - 1)
      {
        VanishesInRest(u, size, turns, k);
      }
      if t.nr < size && t.nwr == t.nr && Judge(u, t.event).GoOn? {
        var left := size - t.nr;
        CopyLosesDestExactly(u, left, rest);
        forall k | 0 <= k < |rest| && VanishesAt(u, left, rest, k)
          ensures VanishesAt(u, size, turns, k + 1)
        {
          VanishesInRest(u, size, turns, k + 1);
        }
      }
    }
  }

  /** Turn k writes the last of the bytes. */
  ghost predicate CompleteAt(u: Unit, size: nat, turns: seq<CopyTurn>, k: nat)
    requires k < |turns|
  {
    && GoesThrough(u, turns, k) && ReadBefore(turns, k) < size <= ReadBefore(turns, k) + turns[k].nr
    && turns[k].nwr == size - ReadBefore(turns, k) && Judge(u, turns[k].event).GoOn?
  }

  /** A copy is whole exactly if in some turn its last bytes are written, the turns before
      went through, and no message stops it in that turn either. */
  lemma {:induction false} CopySizedExactly(u: Unit, size: nat, turns: seq<CopyTurn>)
    ensures CopySized(u, size, turns).Ended? <==>
      size == 0 || exists k :: 0 <= k < |turns| && CompleteAt(u, size, turns, k)
    decreases turns
  {
    if size > 0 && turns != [] {
      var t, rest := turns[0], turns[1..];
      assert CompleteAt(u, size, turns, 0) <==> size <= t.nr && t.nwr == size && Judge(u, t.event).GoOn?;
      forall k | 0 < k < |turns|
        ensures CompleteAt(u, size, turns, k) <==>
          && 0 < t.nr < size && t.nwr == t.nr && Judge(u, t.event).GoOn?
          && CompleteAt(u, size - t.nr, rest, k - 1)
      {
        CompleteInRest(u, size, turns, k);
      }
      if 0 < t.nr < size && t.nwr == t.nr && Judge(u, t.event).GoOn? {
        var left := size - t.nr;
        CopySizedExactly(u, left, rest);
        forall k | 0 <= k < |rest| && CompleteAt(u, left, rest, k) ensures CompleteAt(u, size, turns, k + 1) {
          CompleteInRest(u, size, turns, k + 1);
        }
      }
    }
  }

  lemma {:induction false} CompleteInRest(u: Unit, size: nat, turns: seq<CopyTurn>, k: nat)
    requires 0 < k < |turns| && size > 0
    ensures CompleteAt(u, size, turns, k) <==>
      && 0 < turns[0].nr < size && turns[0].nwr == turns[0].nr && Judge(u, turns[0].event).GoOn?
      && CompleteAt(u, size - turns[0].nr, turns[1..], k - 1)
  {
    GoesThroughRest(u, turns, k);
    if GoesThrough(u, turns[1..], k - 1) {
      ReadsAdd(turns[1..], k - 1);
    }
  }

  // ---------------------------------------------------------- the unit itself

  class ConveyUnit {
    var unit: Unit

    constructor (u: Unit)
      ensures unit == u
    {
      unit := u;
    }

    method UnitStart()
      modifies this
      ensures unit == old(unit).(state := OnGoing)
    {
      unit := unit.(state := OnGoing);
    }

    method InspectEventCheck(event: nat) returns (run: bool)
      modifies this
      ensures run <==> Judge(old(unit), event).GoOn?
      ensures unit == if run then old(unit) else Stopped(old(unit), Judge(old(unit), event).state)
    {
      run := true;
      var ie := event / 0x1_0000 % 256;
      PriorityBytes(event);
      assert ie == KindOf(event);
      hide KindOf, PriorityOf;
      if ie == 0 {
        return;
      }
      if ie == STOP {
        run := false;
        unit := unit.(state := NoWorkload);
      } else if ie == CLEAN {
        run := false;
        unit := unit.(state := Clean);
      } else if ie == CANCEL {
        if unit.tag == event % 256 {
          run := false;
          unit := unit.(state := Cancelled);
        }
      } else {
        var mp := event % 256;
        var mt := event / 256 % 256;
        var priority := mt * 256 + mp;
        if ie == VANISH {
          if unit.src == priority {
            unit := unit.(state := SrcVanish);
            run := false;
          } else if unit.dest == priority {
            run := false;
            if unit.autoDest {
              unit := unit.(state := CommonDestVanish, hasDest := false);
            } else {
              unit := unit.(state := DestVanish);
            }
          }
        } else if ie == COMMON_DEST_CHANGE && unit.autoDest && unit.dest != priority {
          run := false;
          unit := unit.(state := CommonDestChange);
        }
      }
    }

    /** Copies one file that was created and opened. */
    method CopyOneFile(turns: seq<CopyTurn>) returns (ended: bool, noEvent: bool)
      requires unit.state == OnGoing
      modifies this
      ensures ended <==> CopyTurns(old(unit), turns).Ended?
      ensures noEvent <==> !CopyTurns(old(unit), turns).Interrupted?
      ensures unit == if noEvent then old(unit) else Stopped(old(unit), CopyTurns(old(unit), turns).state)
    {
      noEvent, ended := true, false;
      var i := 0;
      while noEvent
        invariant i <= |turns|
        invariant !ended
        invariant noEvent ==> unit == old(unit) && CopyTurns(unit, turns[i..]) == CopyTurns(unit, turns)
        invariant !noEvent ==> CopyTurns(old(unit), turns).Interrupted?
        invariant !noEvent ==> unit == Stopped(old(unit), CopyTurns(old(unit), turns).state)
        decreases |turns| - i, noEvent
      {
        if i == |turns| || turns[i].nr == 0 {
          ended := true;
          break;
        }
        if turns[i].nr < 0 || turns[i].nwr != turns[i].nr {
          break;
        }
        noEvent := InspectEventCheck(turns[i].event);
        assert turns[i..][1..] == turns[i + 1..];
        i := i + 1;
      }
    }

    /** CopyDirToDirUnit's way. */
    method CopyDirToDir(files: seq<SourceFile>)
      requires unit.state == OnGoing
      modifies this
      ensures Handled(unit.state) && unit.state == CopyAll(old(unit), files)
      ensures unit == Stopped(old(unit), unit.state)
    {
      CopyAllEnds(unit, files);
      var noEvent := true;
      var srcCount, destCount := 0, 0;
      var i := 0;
      while i < |files|
        invariant i <= |files| && noEvent && unit == old(unit) && destCount <= srcCount
        invariant CopyAll(unit, files) ==
          var rest := CopyAll(unit, files[i..]);
          if rest == Done && destCount < srcCount then Failed else rest
      {
        var f := files[i];
        assert files[i..][0] == f && files[i..][1..] == files[i + 1..];
        CopyTurnsHandled(unit, f.turns);
        srcCount := srcCount + 1;
        i := i + 1;
        if f.present {
          destCount := destCount + 1;
          continue;
        }
        if !f.created || !f.readable {
          continue;
        }
        var ended;
        ended, noEvent := CopyOneFile(f.turns);
        if ended {
          destCount := destCount + 1;
        }
        if !noEvent {
          break;
        }
      }
      if noEvent {
        unit := unit.(state := if srcCount == destCount then Done else Failed);
      }
    }

    /** CopyToLogFile's way. At its end the destination is closed, and `nullDest` says
        that the pointer to it was not set any more. */
    method CopyToLogFile(size: nat, turns: seq<CopyTurn>) returns (nullDest: bool)
      requires unit.state == OnGoing && unit.hasDest
      modifies this
      ensures Handled(unit.state) && unit.state == StateOf(CopySized(old(unit), size, turns))
      ensures unit == Stopped(old(unit), unit.state)
      ensures nullDest <==> exists k :: 0 <= k < |turns| && VanishesAt(old(unit), size, turns, k)
    {
      CopySizedEnds(unit, size, turns);
      CopyLosesDestExactly(unit, size, turns);
      var cum, sizeWritten := 0, 0;
      var evtReceived := false;
      var i := 0;
      while cum < size
        invariant i <= |turns| && cum == sizeWritten <= size && !evtReceived && unit == old(unit)
        invariant CopySized(unit, size - cum, turns[i..]) == CopySized(unit, size, turns)
        decreases |turns| - i
      {
        var n := if i < |turns| then ReadUpTo(turns[i], size - cum) else 0;
        if n <= 0 {
          break;
        }
        cum := cum + n;
        if turns[i].nwr != n {
          break;
        }
        sizeWritten := sizeWritten + n;
        var run := InspectEventCheck(turns[i].event);
        if !run {
          evtReceived := true;
          break;
        }
        assert turns[i..][1..] == turns[i + 1..];
        i := i + 1;
      }
      if !evtReceived {
        unit := unit.(state := if sizeWritten == size then Done else Failed);
      }
      nullDest := !unit.hasDest;
    }

    /** WriteToLogFile's way: one look at the events, then one write. */
    method WriteToLogFile(size: nat, nwr: int, event: nat) returns (nullDest: bool)
      requires unit.state == OnGoing && unit.hasDest
      modifies this
      ensures Handled(unit.state) && unit == Stopped(old(unit), unit.state)
      ensures unit.state == (match Judge(old(unit), event)
        case StopIn(s) => s
        case GoOn => if nwr == size then Done else Failed)
      ensures nullDest <==> DestVanishes(old(unit), event)
    {
      JudgeIsHandled(unit, event);
      NullDestExactly(unit, event);
      var run := InspectEventCheck(event);
      if run {
        unit := unit.(state := if nwr != size then Failed else Done);
      }
      nullDest := !unit.hasDest;
    }
  }

  /** A copy of two bytes whose medium vanishes after the first: the destination is closed
      through a pointer that is not set. */
  method CloseWithoutDest() returns (nullDest: bool)
    ensures nullDest
  {
    var vanish := VANISH * 0x1_0000 + 7;
    var turns := [CopyTurn(1, 1, 0), CopyTurn(1, 1, vanish)];
    var u := new ConveyUnit(Unit(0, true, 0, 7, OnGoing, true, 0));
    assert KindOf(vanish) == VANISH && PriorityOf(vanish) == 7;
    assert KindOf(0) == 0;
    assert ReadBefore(turns[1..], 0) == 0;
    assert VanishesAt(u.unit, 2, turns, 1);
    nullDest := u.CopyToLogFile(2, turns);
  }
}
