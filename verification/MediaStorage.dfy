/** The quota of a subsystem over its directories on a medium. */
module MediaStorage {
  import opened Basics
  import opened CpDirectory

  type CpClass = nat

  const CLASS_MIX: CpClass := 4

  /** A directory set, with the subsystem's directory in it if there is one. */
  datatype CpSet = CpSet(cls: CpClass, dir: Option<seq<LogFile>>, size: nat) {
    predicate Valid() {
      dir.Some? ==> size == Sum(dir.value)
    }
  }

  predicate Matches(s: CpSet, cls: CpClass) {
    s.cls == cls && s.dir.Some?
  }

  predicate AllValid(sets: seq<CpSet>) {
    forall i :: 0 <= i < |sets| ==> sets[i].Valid()
  }

  function Total(sets: seq<CpSet>, cls: CpClass): nat {
    if sets == [] then 0 else (if Matches(sets[0], cls) then sets[0].size else 0) + Total(sets[1..], cls)
  }

  /** The bytes of the files that may be overwritten. */
  function Overwritable(sets: seq<CpSet>, cls: CpClass): nat {
    if sets == [] then 0
    else (if Matches(sets[0], cls) then Sum(Overwritables(sets[0].dir.value)) else 0) + Overwritable(sets[1..], cls)
  }

  function TrimSet(s: CpSet, request: nat, stuck: set<FileId>): CpSet
    requires s.dir.Some?
  {
    var (kept, freed) := Trim(s.dir.value, request, stuck);
    s.(dir := Some(kept), size := if freed <= s.size then s.size - freed else 0)
  }

  /** Asks one directory after the other for the whole request until n bytes are free. */
  function TrimSets(sets: seq<CpSet>, cls: CpClass, request: nat, n: nat, stuck: set<FileId>): (seq<CpSet>, nat) {
    if sets == [] then ([], n)
    else if !Matches(sets[0], cls) then
      var (rest, m) := TrimSets(sets[1..], cls, request, n, stuck);
      ([sets[0]] + rest, m)
    else
      var n' := n + Trim(sets[0].dir.value, request, stuck).1;
      var s := TrimSet(sets[0], request, stuck);
      if n' >= request then ([s] + sets[1..], n')
      else
        var (rest, m) := TrimSets(sets[1..], cls, request, n', stuck);
        ([s] + rest, m)
  }

  lemma {:induction false} TrimSetsConserves(sets: seq<CpSet>, cls: CpClass, request: nat, n: nat, stuck: set<FileId>)
    requires AllValid(sets)
    ensures var (after, m) := TrimSets(sets, cls, request, n, stuck);
      AllValid(after) && |after| == |sets| && Total(after, cls) + m == Total(sets, cls) + n
    decreases sets
  {
    if sets != [] {
      var s, rest := sets[0], sets[1..];
      assert s.Valid() && AllValid(rest);
      if !Matches(s, cls) {
        TrimSetsConserves(rest, cls, request, n, stuck);
        var (after, m) := TrimSets(rest, cls, request, n, stuck);
        assert ([s] + after)[1..] == after;
      } else {
        TrimConserves(s.dir.value, request, stuck);
        var s' := TrimSet(s, request, stuck);
        var n' := n + Trim(s.dir.value, request, stuck).1;
        assert s'.Valid() && ([s'] + rest)[1..] == rest;
        if n' < request {
          TrimSetsConserves(rest, cls, request, n', stuck);
          var (after, m) := TrimSets(rest, cls, request, n', stuck);
          assert ([s'] + after)[1..] == after;
        }
      }
    }
  }

  lemma {:induction false} ShortTrimTakesAll(files: seq<LogFile>, request: nat)
    requires request > 0
    ensures Trim(files, request, {}).1 < request ==> Trim(files, request, {}).1 == Sum(Overwritables(files))
  {
    var all := Overwritables(files);
    var k := Needed(all, request);
    TrimIsShortest(files, request);
    NeededIsLeast(all, request);
    assert k == |all| ==> all[..k] == all;
  }

  /** If every removal works, the request is met exactly if so much may be overwritten. */
  lemma {:induction false} TrimSetsMeet(sets: seq<CpSet>, cls: CpClass, request: nat, n: nat)
    requires n < request
    ensures TrimSets(sets, cls, request, n, {}).1 >= request <==> n + Overwritable(sets, cls) >= request
    decreases sets
  {
    if sets != [] {
      if !Matches(sets[0], cls) {
        TrimSetsMeet(sets[1..], cls, request, n);
      } else {
        var files := sets[0].dir.value;
        var freed := Trim(files, request, {}).1;
        ShortTrimTakesAll(files, request);
        TrimAtMost(files, request);
        if n + freed < request {
          TrimSetsMeet(sets[1..], cls, request, n + freed);
        }
      }
    }
  }

  lemma {:induction false} TrimAtMost(files: seq<LogFile>, request: nat)
    requires request > 0
    ensures Trim(files, request, {}).1 <= Sum(Overwritables(files))
  {
    var all := Overwritables(files);
    var k := Needed(all, request);
    TrimIsShortest(files, request);
    assert all == all[..k] + all[k..];
    SumConcat(all[..k], all[k..]);
  }

  /** Asks each directory only for what the request still lacks. */
  function TrimLacking(sets: seq<CpSet>, cls: CpClass, request: nat, n: nat, stuck: set<FileId>): (seq<CpSet>, nat)
    requires n < request
  {
    if sets == [] then ([], n)
    else if !Matches(sets[0], cls) then
      var (rest, m) := TrimLacking(sets[1..], cls, request, n, stuck);
      ([sets[0]] + rest, m)
    else
      var n' := n + Trim(sets[0].dir.value, request - n, stuck).1;
      var s := TrimSet(sets[0], request - n, stuck);
      if n' >= request then ([s] + sets[1..], n')
      else
        var (rest, m) := TrimLacking(sets[1..], cls, request, n', stuck);
        ([s] + rest, m)
  }

  /** Two trims of one directory leave the same files exactly if they need as many. */
  lemma {:induction false} SameTrim(s: CpSet, a: nat, b: nat)
    requires s.dir.Some? && a > 0 && b > 0
    ensures var files := s.dir.value;
      var all := Overwritables(files);
      && (TrimSet(s, a, {}) == TrimSet(s, b, {}) <==> Needed(all, a) == Needed(all, b))
      && (Needed(all, a) == Needed(all, b) ==> Trim(files, a, {}) == Trim(files, b, {}))
  {
    var files := s.dir.value;
    var all := Overwritables(files);
    TrimIsShortest(files, a);
    TrimIsShortest(files, b);
    var k, l := Needed(all, a), Needed(all, b);
    assert |all[k..]| == |all| - k && |all[l..]| == |all| - l;
    if k == l {
      SameNeedSameTrim(files, a, b);
    }
  }

  lemma {:induction false} SameNeedSameTrim(files: seq<LogFile>, a: nat, b: nat)
    requires a > 0 && b > 0
    requires Needed(Overwritables(files), a) == Needed(Overwritables(files), b)
    ensures Trim(files, a, {}) == Trim(files, b, {})
  {
    if files != [] {
      var f, rest := files[0], files[1..];
      if !f.overwritable {
        SameNeedSameTrim(rest, a, b);
      } else {
        assert Overwritables(files)[1..] == Overwritables(rest);
        if f.size < a && f.size < b {
          SameNeedSameTrim(rest, a - f.size, b - f.size);
        } else if f.size < a {
          NothingToTrim(rest, a - f.size);
        } else if f.size < b {
          NothingToTrim(rest, b - f.size);
        }
      }
    }
  }

  lemma {:induction false} NothingToTrim(files: seq<LogFile>, sz: nat)
    requires sz > 0 && Needed(Overwritables(files), sz) == 0
    ensures Trim(files, sz, {}) == (files, 0)
  {
    if files != [] && !files[0].overwritable {
      NothingToTrim(files[1..], sz);
      assert [files[0]] + files[1..] == files;
    }
  }

  lemma {:induction false} ShortTrimNeedsAll(files: seq<LogFile>, sz: nat)
    requires sz > 0 && Sum(Overwritables(files)) < sz
    ensures Needed(Overwritables(files), sz) == |Overwritables(files)|
    ensures Trim(files, sz, {}).1 == Sum(Overwritables(files))
  {
    var all := Overwritables(files);
    var k := Needed(all, sz);
    TrimIsShortest(files, sz);
    NeededIsLeast(all, sz);
    assert all == all[..k] + all[k..];
    SumConcat(all[..k], all[k..]);
    assert all[..|all|] == all;
  }

  /** The directory at which what may be overwritten reaches the request, or the number of
      all if it never does. */
  function MetAt(sets: seq<CpSet>, cls: CpClass, request: nat, n: nat): (i: nat)
    requires n < request
    ensures i <= |sets| && (i == |sets| <==> n + Overwritable(sets, cls) < request)
  {
    if sets == [] then 0
    else
      var n' := n + if Matches(sets[0], cls) then Sum(Overwritables(sets[0].dir.value)) else 0;
      if n' >= request then 0 else 1 + MetAt(sets[1..], cls, request, n')
  }

  lemma {:induction false} MetAtReaches(sets: seq<CpSet>, cls: CpClass, request: nat, n: nat)
    requires n < request && MetAt(sets, cls, request, n) < |sets|
    ensures var i := MetAt(sets, cls, request, n);
      && Matches(sets[i], cls)
      && n + Overwritable(sets[..i], cls) < request
      && n + Overwritable(sets[..i], cls) + Sum(Overwritables(sets[i].dir.value)) >= request
    decreases sets
  {
    var i, rest := MetAt(sets, cls, request, n), sets[1..];
    if i == 0 {
      assert sets[..0] == [];
    } else {
      var n' := n + if Matches(sets[0], cls) then Sum(Overwritables(sets[0].dir.value)) else 0;
      MetAtReaches(rest, cls, request, n');
      assert sets[..i][0] == sets[0] && sets[..i][1..] == rest[..i - 1];
    }
  }

  /** The directory that meets the request, if any does, needs as many files for the whole
      request as for what those before it have left over. */
  predicate NeedsNoMore(sets: seq<CpSet>, cls: CpClass, request: nat, n: nat)
    requires n < request
  {
    var i := MetAt(sets, cls, request, n);
    i < |sets| ==>
      var m := n + Overwritable(sets[..i], cls);
      && Matches(sets[i], cls) && m < request
      && var all := Overwritables(sets[i].dir.value);
      Needed(all, request) == Needed(all, request - m)
  }

  lemma {:induction false} NeedsNoMoreRest(sets: seq<CpSet>, cls: CpClass, request: nat, n: nat)
    requires sets != []
    requires n + (if Matches(sets[0], cls) then Sum(Overwritables(sets[0].dir.value)) else 0) < request
    ensures var n' := n + if Matches(sets[0], cls) then Sum(Overwritables(sets[0].dir.value)) else 0;
      NeedsNoMore(sets, cls, request, n) <==> NeedsNoMore(sets[1..], cls, request, n')
  {
    var i, rest := MetAt(sets, cls, request, n), sets[1..];
    if i < |sets| {
      assert sets[..i][0] == sets[0] && sets[..i][1..] == rest[..i - 1];
    }
  }

  /** When no removal fails, asking again for the whole request deletes the files that
      asking for the rest deletes, and no others, exactly if the request is not met at all
      or the directory that meets it needs no more files for the whole request. */
  lemma {:induction false} TrimsNoMoreExactly(sets: seq<CpSet>, cls: CpClass, request: nat, n: nat)
    requires n < request
    ensures TrimSets(sets, cls, request, n, {}).0 == TrimLacking(sets, cls, request, n, {}).0 <==>
      NeedsNoMore(sets, cls, request, n)
    decreases sets
  {
    if sets != [] {
      if MetAt(sets, cls, request, n) == 0 {
        LastTrim(sets, cls, request, n);
        assert sets[..0] == [];
      } else {
        var own := if Matches(sets[0], cls) then Sum(Overwritables(sets[0].dir.value)) else 0;
        FirstTrim(sets, cls, request, n);
        NeedsNoMoreRest(sets, cls, request, n);
        hide TrimSets, TrimLacking, NeedsNoMore, Overwritables, Needed;
        TrimsNoMoreExactly(sets[1..], cls, request, n + own);
      }
    }
  }

  lemma {:induction false} SameFirst(s: CpSet, a: seq<CpSet>, b: seq<CpSet>)
    ensures [s] + a == [s] + b <==> a == b
  {
    assert ([s] + a)[1..] == a && ([s] + b)[1..] == b;
  }

  /** A directory that does not meet the request is emptied either way. */
  lemma {:induction false} FirstTrim(sets: seq<CpSet>, cls: CpClass, request: nat, n: nat)
    requires sets != []
    requires n + (if Matches(sets[0], cls) then Sum(Overwritables(sets[0].dir.value)) else 0) < request
    ensures var n' := n + if Matches(sets[0], cls) then Sum(Overwritables(sets[0].dir.value)) else 0;
      TrimSets(sets, cls, request, n, {}).0 == TrimLacking(sets, cls, request, n, {}).0 <==>
        TrimSets(sets[1..], cls, request, n', {}).0 == TrimLacking(sets[1..], cls, request, n', {}).0
  {
    var s, n' := sets[0], n;
    if Matches(s, cls) {
      n' := n + Sum(Overwritables(s.dir.value));
      ShortTrimNeedsAll(s.dir.value, request);
      ShortTrimNeedsAll(s.dir.value, request - n);
      SameTrim(s, request, request - n);
    }
    SameFirst(if Matches(s, cls) then TrimSet(s, request, {}) else s,
              TrimSets(sets[1..], cls, request, n', {}).0, TrimLacking(sets[1..], cls, request, n', {}).0);
    hide Trim, TrimSet, Overwritables, Needed;
  }

  /** The directory that meets the request. */
  lemma {:induction false} LastTrim(sets: seq<CpSet>, cls: CpClass, request: nat, n: nat)
    requires n < request && sets != [] && Matches(sets[0], cls)
    requires n + Sum(Overwritables(sets[0].dir.value)) >= request
    ensures var all := Overwritables(sets[0].dir.value);
      TrimSets(sets, cls, request, n, {}).0 == TrimLacking(sets, cls, request, n, {}).0 <==>
        Needed(all, request) == Needed(all, request - n)
  {
    var s, rest := sets[0], sets[1..];
    var files := s.dir.value;
    TrimMeetsRequest(files, request - n);
    if Sum(Overwritables(files)) < request {
      ShortTrimNeedsAll(files, request);
    } else {
      TrimMeetsRequest(files, request);
    }
    SameTrim(s, request, request - n);
    var t, u := TrimSet(s, request, {}), TrimSet(s, request - n, {});
    assert ([t] + rest)[0] == t && ([u] + rest)[0] == u;
  }

  /** A case in which more goes: the second directory is asked for the whole request again,
      although the first has freed most of it, and 190 bytes go where 100 would do. */
  lemma {:induction false} TrimsTooMuch()
    ensures var first, second := [LogFile(1, 0, 90, true)], [LogFile(2, 0, 10, true), LogFile(3, 1, 90, true)];
      var sets := [CpSet(0, Some(first), 90), CpSet(0, Some(second), 100)];
      TrimSets(sets, 0, 100, 0, {}).1 == 190 && TrimLacking(sets, 0, 100, 0, {}).1 == 100
  {
    var a, b, c := LogFile(1, 0, 90, true), LogFile(2, 0, 10, true), LogFile(3, 1, 90, true);
    var s, t := CpSet(0, Some([a]), 90), CpSet(0, Some([b, c]), 100);
    assert [a][1..] == [] && [b, c][1..] == [c] && [c][1..] == [];
    assert Trim([a], 100, {}) == ([], 90);
    assert Trim([c], 90, {}) == ([], 90);
    assert Trim([b, c], 100, {}) == ([], 100);
    assert Trim([b, c], 10, {}) == ([c], 10);
    assert [s, t][1..] == [t] && [t][1..] == [];
  }

  class MediaStorage {
    var logDirs: seq<CpSet>

    ghost predicate Valid()
      reads this
    {
      AllValid(logDirs)
    }

    constructor ()
      ensures Valid() && logDirs == []
    {
      logDirs := [];
    }

    method LogSize(cls: CpClass) returns (size: nat)
      ensures size == Total(logDirs, cls)
    {
      size := 0;
      assert logDirs[0..] == logDirs;
      for i := 0 to |logDirs|
        invariant size + Total(logDirs[i..], cls) == Total(logDirs, cls)
      {
        assert logDirs[i..][1..] == logDirs[i + 1..];
        if Matches(logDirs[i], cls) {
          size := size + logDirs[i].size;
        }
      }
    }

    /** Makes room in the directories of a class. */
    method MakeRoom(cls: CpClass, trimSize: nat, stuck: set<FileId>) returns (n: nat)
      requires Valid()
      modifies this
      ensures Valid() && (logDirs, n) == TrimSets(old(logDirs), cls, trimSize, 0, stuck)
    {
      TrimSetsConserves(logDirs, cls, trimSize, 0, stuck);
      ghost var all, was := TrimSets(logDirs, cls, trimSize, 0, stuck), logDirs;
      n := 0;
      assert was[..0] + all.0 == all.0 && was[0..] == was;
      var i := 0;
      while i < |logDirs|
        invariant i <= |logDirs| == |was| && logDirs[i..] == was[i..]
        invariant all == SetsJoined(logDirs[..i], TrimSets(was[i..], cls, trimSize, n, stuck))
      {
        TrimSetsOne(logDirs, i, cls, trimSize, n, stuck);
        var s := logDirs[i];
        if Matches(s, cls) {
          n := n + Trim(s.dir.value, trimSize, stuck).1;
          logDirs := logDirs[i := TrimSet(s, trimSize, stuck)];
          if n >= trimSize {
            break;
          }
        }
        i := i + 1;
      }
      assert i == |logDirs| ==> logDirs[..i] + [] == logDirs;
    }

    /** 0 if there is room for a new log, -1 if not. With overwriting, oldest files are
        deleted; then there is room exactly if the subsystem keeps to its limit. */
    method CheckCpQuota(cls: CpClass, limit: nat, maxFile: nat, overwrite: bool, isFull: bool, stuck: set<FileId>)
      returns (ret: int)
      requires Valid()
      modifies this
      ensures Valid() && (ret == 0 || ret == -1)
      ensures cls == CLASS_MIX ==> ret == 0 && logDirs == old(logDirs)
      ensures cls != CLASS_MIX && !overwrite ==>
        logDirs == old(logDirs) && (ret == -1 <==> isFull || (limit > 0 && Total(logDirs, cls) >= limit))
      ensures cls != CLASS_MIX && overwrite && !isFull && limit > 0 ==> (ret == 0 <==> Total(logDirs, cls) <= limit)
      ensures cls != CLASS_MIX && overwrite && !isFull && (limit == 0 || Total(old(logDirs), cls) <= limit) ==>
        ret == 0 && logDirs == old(logDirs)
      ensures cls != CLASS_MIX && overwrite && isFull ==>
        (ret == 0 <==> Total(logDirs, cls) + maxFile <= Total(old(logDirs), cls))
      ensures cls != CLASS_MIX && overwrite && !isFull && 0 < limit < Total(old(logDirs), cls) && stuck == {} ==>
        (ret == 0 <==> Overwritable(old(logDirs), cls) >= Total(old(logDirs), cls) - limit)
    {
      if cls == CLASS_MIX {
        return 0;
      }
      var logSize := LogSize(cls);
      ret := 0;
      var trimSize := 0;
      if overwrite {
        if isFull {
          trimSize := maxFile;
        } else if limit > 0 && logSize > limit {
          trimSize := logSize - limit;
        }
      } else {
        if isFull {
          ret := -1;
        } else if limit > 0 && logSize >= limit {
          ret := -1;
        }
      }
      if trimSize > 0 {
        TrimSetsConserves(logDirs, cls, trimSize, 0, stuck);
        TrimSetsMeet(logDirs, cls, trimSize, 0);
        var n := MakeRoom(cls, trimSize, stuck);
        if n < trimSize {
          ret := -1;
        }
      }
    }
  }

  function SetsJoined(pre: seq<CpSet>, rest: (seq<CpSet>, nat)): (seq<CpSet>, nat) {
    (pre + rest.0, rest.1)
  }

  /** One turn of the loop. */
  lemma {:induction false} TrimSetsOne(sets: seq<CpSet>, i: nat, cls: CpClass, request: nat, n: nat, stuck: set<FileId>)
    requires i < |sets|
    ensures var s := sets[i];
      var all := SetsJoined(sets[..i], TrimSets(sets[i..], cls, request, n, stuck));
      && (!Matches(s, cls) ==> all == SetsJoined(sets[..i + 1], TrimSets(sets[i + 1..], cls, request, n, stuck)))
      && (Matches(s, cls) ==>
            var n' := n + Trim(s.dir.value, request, stuck).1;
            var trimmed := sets[i := TrimSet(s, request, stuck)];
            && trimmed[i + 1..] == sets[i + 1..]
            && (n' >= request ==> all == (trimmed, n'))
            && (n' < request ==> all == SetsJoined(trimmed[..i + 1], TrimSets(sets[i + 1..], cls, request, n', stuck))))
  {
    var s := sets[i];
    assert sets[i..][0] == s && sets[i..][1..] == sets[i + 1..];
    if Matches(s, cls) {
      var s' := TrimSet(s, request, stuck);
      var n' := n + Trim(s.dir.value, request, stuck).1;
      var rest := TrimSets(sets[i + 1..], cls, request, n', stuck).0;
      assert sets[i := s'] == sets[..i] + ([s'] + sets[i + 1..]);
      assert sets[i := s'][..i + 1] + rest == sets[..i] + ([s'] + rest);
    } else {
      var rest := TrimSets(sets[i + 1..], cls, request, n, stuck).0;
      assert sets[..i + 1] + rest == sets[..i] + ([s] + rest);
    }
  }
}
