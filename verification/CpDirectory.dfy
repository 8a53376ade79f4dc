/** The log files of a subsystem in one directory, and the quota over all its directories
    on a medium. Which files cannot be removed is an input. */
module CpDirectory {
  import opened Basics

  type FileId = nat

  /** `time` stands for the time in the file's name. */
  datatype LogFile = LogFile(id: FileId, time: nat, size: nat, overwritable: bool)

  function Sum(files: seq<LogFile>): nat {
    if files == [] then 0 else files[0].size + Sum(files[1..])
  }

  lemma {:induction false} SumConcat(a: seq<LogFile>, b: seq<LogFile>)
    ensures Sum(a + b) == Sum(a) + Sum(b)
  {
    if a == [] {
      assert a + b == b;
    } else {
      assert (a + b)[1..] == a[1..] + b;
      SumConcat(a[1..], b);
    }
  }

  function Overwritables(files: seq<LogFile>): seq<LogFile> {
    if files == [] then []
    else if files[0].overwritable then [files[0]] + Overwritables(files[1..])
    else Overwritables(files[1..])
  }

  function Others(files: seq<LogFile>): seq<LogFile> {
    if files == [] then []
    else if files[0].overwritable then Others(files[1..])
    else [files[0]] + Others(files[1..])
  }

  // ------------------------------------------------------------------ trimming

  /** What trimming by sz leaves, and the bytes it frees. It stops at the first file that
      cannot be removed. */
  function Trim(files: seq<LogFile>, sz: nat, stuck: set<FileId>): (seq<LogFile>, nat) {
    if files == [] then ([], 0)
    else
      var f := files[0];
      if !f.overwritable then
        var (kept, freed) := Trim(files[1..], sz, stuck);
        ([f] + kept, freed)
      else if f.id in stuck then (files, 0)
      else if f.size >= sz then (files[1..], f.size)
      else
        var (kept, freed) := Trim(files[1..], sz - f.size, stuck);
        (kept, f.size + freed)
  }

  lemma {:induction false} TrimConserves(files: seq<LogFile>, sz: nat, stuck: set<FileId>)
    ensures var (kept, freed) := Trim(files, sz, stuck);
      Sum(kept) + freed == Sum(files) && Others(kept) == Others(files) && |kept| <= |files|
  {
    if files != [] {
      var f := files[0];
      if !f.overwritable {
        TrimConserves(files[1..], sz, stuck);
        var (kept, freed) := Trim(files[1..], sz, stuck);
        assert ([f] + kept)[1..] == kept;
      } else if f.id !in stuck && f.size < sz {
        TrimConserves(files[1..], sz - f.size, stuck);
      }
    }
  }

  /** The least number of files from the front that have sz bytes together, or all. */
  function Needed(files: seq<LogFile>, sz: nat): (k: nat)
    ensures k <= |files|
  {
    if files == [] || sz == 0 then 0
    else if files[0].size >= sz then 1
    else 1 + Needed(files[1..], sz - files[0].size)
  }

  /** So many files are enough if the request can be met at all, and one less is not. */
  lemma {:induction false} NeededIsLeast(files: seq<LogFile>, sz: nat)
    ensures var k := Needed(files, sz);
      && (Sum(files[..k]) >= sz || k == |files|)
      && (k > 0 ==> Sum(files[..k - 1]) < sz)
  {
    if files != [] && sz > 0 {
      var k := Needed(files, sz);
      if files[0].size >= sz {
        assert files[..1][1..] == [] && files[..1][0] == files[0];
      } else {
        NeededIsLeast(files[1..], sz - files[0].size);
        assert files[..k][1..] == files[1..][..k - 1] && files[..k][0] == files[0];
        if k > 1 {
          assert files[..k - 1][1..] == files[1..][..k - 2] && files[..k - 1][0] == files[0];
        }
      }
    }
  }

  /** A trim of a positive size in which no removal fails deletes exactly the shortest
      row of overwritable files, from the oldest on, that has the size, or all of them,
      and returns the bytes of these files. */
  lemma {:induction false} TrimIsShortest(files: seq<LogFile>, sz: nat)
    requires sz > 0
    ensures var (kept, freed) := Trim(files, sz, {});
      var all := Overwritables(files);
      var k := Needed(all, sz);
      Overwritables(kept) == all[k..] && freed == Sum(all[..k])
  {
    if files != [] {
      var f, rest := files[0], files[1..];
      var all := Overwritables(files);
      var k := Needed(all, sz);
      if !f.overwritable {
        TrimIsShortest(rest, sz);
        var (kept, freed) := Trim(rest, sz, {});
        assert ([f] + kept)[1..] == kept;
      } else {
        assert all[0] == f && all[1..] == Overwritables(rest);
        assert all[..k][0] == f && all[..k][1..] == all[1..][..k - 1];
        if f.size >= sz {
          assert all[..1][1..] == [];
        } else {
          TrimIsShortest(rest, sz - f.size);
          assert all[k..] == all[1..][k - 1..];
        }
      }
    }
  }

  /** With every removal possible, the request is met if and only if there is enough to
      overwrite. */
  lemma {:induction false} TrimMeetsRequest(files: seq<LogFile>, sz: nat)
    requires sz > 0
    ensures Trim(files, sz, {}).1 >= sz <==> Sum(Overwritables(files)) >= sz
  {
    var all := Overwritables(files);
    var k := Needed(all, sz);
    TrimIsShortest(files, sz);
    NeededIsLeast(all, sz);
    assert all == all[..k] + all[k..];
    SumConcat(all[..k], all[k..]);
    assert k == |all| ==> all[..k] == all;
  }

  /** Nothing in a trim spares the file that is being written. The file at position i
      goes exactly if it may be overwritten and the overwritable files before it do not
      free enough. */
  lemma {:induction false} TrimDeletes(files: seq<LogFile>, sz: nat, i: nat)
    requires sz > 0 && i < |files|
    requires forall a, b :: 0 <= a < b < |files| ==> files[a].id != files[b].id
    ensures files[i] !in Trim(files, sz, {}).0 <==>
      files[i].overwritable && Sum(Overwritables(files[..i])) < sz
  {
    var f, rest := files[0], files[1..];
    var (kept, freed) := Trim(files, sz, {});
    TrimKeepsSome(files, sz);
    assert forall a :: 0 <= a < |rest| ==> rest[a] == files[a + 1];
    if i > 0 {
      assert files[..i][0] == f && files[..i][1..] == rest[..i - 1] && rest[i - 1] == files[i];
      if !f.overwritable {
        TrimDeletes(rest, sz, i - 1);
      } else if f.size < sz {
        TrimDeletes(rest, sz - f.size, i - 1);
        assert Overwritables(files[..i])[1..] == Overwritables(rest[..i - 1]);
      } else {
        assert Overwritables(files[..i])[0] == f;
        assert files[i] == rest[i - 1];
      }
    } else if f.overwritable {
      TrimKeepsSome(rest, if f.size < sz then sz - f.size else sz);
    }
  }

  lemma {:induction false} TrimKeepsSome(files: seq<LogFile>, sz: nat)
    ensures forall f :: f in Trim(files, sz, {}).0 ==> f in files
  {
    if files != [] {
      TrimKeepsSome(files[1..], sz);
      if files[0].size < sz {
        TrimKeepsSome(files[1..], sz - files[0].size);
      }
    }
  }

  /** The oldest file goes although it is the one being written. */
  lemma {:induction false} TrimMayDeleteCurrentLog()
    ensures Trim([LogFile(1, 0, 100, true)], 50, {}) == ([], 100)
  {
    assert [LogFile(1, 0, 100, true)][1..] == [];
  }

  // ----------------------------------------------------------- the file list

  function InsertAscending(files: seq<LogFile>, f: LogFile): seq<LogFile> {
    if files == [] || f.time <= files[0].time then [f] + files else [files[0]] + InsertAscending(files[1..], f)
  }

  predicate Ascending(files: seq<LogFile>) {
    forall i, j :: 0 <= i < j < |files| ==> files[i].time <= files[j].time
  }

  lemma {:induction false} InsertAt(files: seq<LogFile>, f: LogFile) returns (k: nat)
    ensures k <= |files| && InsertAscending(files, f) == files[..k] + [f] + files[k..]
    ensures k < |files| ==> f.time <= files[k].time
    ensures forall i :: 0 <= i < k ==> files[i].time < f.time
  {
    if files == [] || f.time <= files[0].time {
      k := 0;
    } else {
      k := InsertAt(files[1..], f);
      assert files[1..][..k] == files[1..k + 1] && files[1..][k..] == files[k + 1..];
      k := k + 1;
    }
  }

  /** Nothing is lost and nothing else is added. */
  lemma {:induction false} InsertAdds(files: seq<LogFile>, f: LogFile)
    ensures Sum(InsertAscending(files, f)) == Sum(files) + f.size
    ensures multiset(InsertAscending(files, f)) == multiset(files) + multiset{f}
  {
    var k := InsertAt(files, f);
    hide InsertAscending;
    assert files == files[..k] + files[k..] && [f][1..] == [];
    SumConcat(files[..k], files[k..]);
    SumConcat(files[..k] + [f], files[k..]);
    SumConcat(files[..k], [f]);
  }

  /** A file enters before the files that are not older: an ascending list stays so. */
  lemma {:induction false} InsertKeepsOrder(files: seq<LogFile>, f: LogFile)
    requires Ascending(files)
    ensures Ascending(InsertAscending(files, f))
  {
    var k := InsertAt(files, f);
    hide InsertAscending;
    var after := files[..k] + [f] + files[k..];
    forall i, j | 0 <= i < j < |after| ensures after[i].time <= after[j].time {
      var a := if i < k then files[i] else if i == k then f else files[i - 1];
      var b := if j < k then files[j] else if j == k then f else files[j - 1];
      assert after[i] == a && after[j] == b;
    }
  }

  /** The first overwritable file that can be removed, or the end of the list. */
  function OldestRemovable(files: seq<LogFile>, stuck: set<FileId>): (i: nat)
    ensures i <= |files| && (i < |files| ==> files[i].overwritable && files[i].id !in stuck)
    ensures forall k :: 0 <= k < i ==> !files[k].overwritable || files[k].id in stuck
  {
    if files == [] || (files[0].overwritable && files[0].id !in stuck) then 0
    else 1 + OldestRemovable(files[1..], stuck)
  }

  lemma {:induction false} SumSplit(files: seq<LogFile>, i: nat)
    requires i < |files|
    ensures Sum(files) == Sum(files[..i]) + files[i].size + Sum(files[i + 1..])
    ensures Sum(files[..i] + files[i + 1..]) == Sum(files) - files[i].size
  {
    assert files == files[..i] + ([files[i]] + files[i + 1..]);
    assert ([files[i]] + files[i + 1..])[1..] == files[i + 1..];
    SumConcat(files[..i], [files[i]] + files[i + 1..]);
    SumConcat(files[..i], files[i + 1..]);
  }

  function Joined(pre: seq<LogFile>, rest: (seq<LogFile>, nat), freed: nat): (seq<LogFile>, nat) {
    (pre + rest.0, freed + rest.1)
  }

  /** One turn of the loop. */
  lemma {:induction false} TrimOne(files: seq<LogFile>, it: nat, sz: nat, stuck: set<FileId>, freed: nat)
    requires it < |files|
    ensures var f := files[it];
      var erased := files[..it] + files[it + 1..];
      var all := Joined(files[..it], Trim(files[it..], sz, stuck), freed);
      && (!f.overwritable ==> all == Joined(files[..it + 1], Trim(files[it + 1..], sz, stuck), freed))
      && (f.overwritable && f.id in stuck ==> all == (files, freed))
      && (f.overwritable && f.id !in stuck && f.size >= sz ==> all == (erased, freed + f.size))
      && (f.overwritable && f.id !in stuck && f.size < sz ==>
            all == Joined(erased[..it], Trim(erased[it..], sz - f.size, stuck), freed + f.size))
  {
    var f := files[it];
    var erased := files[..it] + files[it + 1..];
    assert files[it..][0] == f && files[it..][1..] == files[it + 1..];
    assert files[..it + 1] == files[..it] + [f] && files[..it] + files[it..] == files;
    assert erased[..it] == files[..it] && erased[it..] == files[it + 1..];
    if !f.overwritable {
      var kept := Trim(files[it + 1..], sz, stuck).0;
      assert files[..it] + ([f] + kept) == files[..it + 1] + kept;
    }
  }

  class CpDirectory {
    var logFiles: seq<LogFile>
    var size: nat

    /** The size of the directory is that of its files. */
    ghost predicate Valid()
      reads this
    {
      size == Sum(logFiles)
    }

    constructor ()
      ensures Valid() && logFiles == []
    {
      logFiles, size := [], 0;
    }

    method TrimFiles(request: nat, stuck: set<FileId>) returns (totalDec: nat)
      requires Valid()
      modifies this
      ensures Valid() && (logFiles, totalDec) == Trim(old(logFiles), request, stuck)
    {
      TrimConserves(logFiles, request, stuck);
      ghost var all := Trim(logFiles, request, stuck);
      var sz: nat := request;
      var it := 0;
      totalDec := 0;
      assert logFiles[..0] + all.0 == all.0 && logFiles[0..] == logFiles;
      while it < |logFiles|
        invariant it <= |logFiles| && size == old(size)
        invariant all == Joined(logFiles[..it], Trim(logFiles[it..], sz, stuck), totalDec)
        decreases |logFiles| - it
      {
        TrimOne(logFiles, it, sz, stuck, totalDec);
        var f := logFiles[it];
        if !f.overwritable {
          it := it + 1;
          continue;
        }
        if f.id in stuck {
          break;
        }
        logFiles := logFiles[..it] + logFiles[it + 1..];
        totalDec := totalDec + f.size;
        if f.size >= sz {
          break;
        }
        sz := sz - f.size;
      }
      assert it == |logFiles| ==> logFiles[..it] + [] == logFiles;
      size := size - totalDec;
    }

    /** LogFile::add_size: a file grows, and the directory with it. */
    method AddSize(i: nat, len: nat)
      requires Valid() && i < |logFiles|
      modifies this
      ensures Valid() && logFiles == old(logFiles)[i := old(logFiles)[i].(size := old(logFiles)[i].size + len)]
    {
      var f := logFiles[i].(size := logFiles[i].size + len);
      SumSplit(logFiles, i);
      SumSplit(logFiles[i := f], i);
      assert logFiles[i := f][..i] == logFiles[..i] && logFiles[i := f][i + 1..] == logFiles[i + 1..];
      logFiles := logFiles[i := f];
      size := size + len;
    }

    method AddLogFile(f: LogFile)
      requires Valid()
      modifies this
      ensures Valid() && logFiles == InsertAscending(old(logFiles), f)
      ensures Ascending(old(logFiles)) ==> Ascending(logFiles)
    {
      InsertAdds(logFiles, f);
      if Ascending(logFiles) {
        InsertKeepsOrder(logFiles, f);
      }
      size := size + f.size;
      var it := 0;
      while it < |logFiles| && f.time > logFiles[it].time
        invariant it <= |logFiles| && logFiles == old(logFiles) && size == old(size) + f.size
        invariant forall k :: 0 <= k < it ==> logFiles[k].time < f.time
      {
        it := it + 1;
      }
      ghost var k := InsertAt(logFiles, f);
      assert k == it;
      logFiles := logFiles[..it] + [f] + logFiles[it..];
    }

    method RmOldestLogFile(stuck: set<FileId>)
      requires Valid()
      modifies this
      ensures Valid()
      ensures var i := OldestRemovable(old(logFiles), stuck);
        logFiles == if i < |old(logFiles)| then old(logFiles)[..i] + old(logFiles)[i + 1..] else old(logFiles)
    {
      var it := 0;
      while it < |logFiles| && (!logFiles[it].overwritable || logFiles[it].id in stuck)
        invariant it <= |logFiles|
        invariant OldestRemovable(logFiles, stuck) == it + OldestRemovable(logFiles[it..], stuck)
      {
        assert logFiles[it..][1..] == logFiles[it + 1..];
        it := it + 1;
      }
      if it < |logFiles| {
        SumSplit(logFiles, it);
        size := size - logFiles[it].size;
        logFiles := logFiles[..it] + logFiles[it + 1..];
      }
    }
  }
}
