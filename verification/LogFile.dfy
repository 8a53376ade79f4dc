/** A log file with a buffer in front of it. What the system calls return is an input; a
    write call takes at most what it is given. */
module LogFile {
  import opened Basics

  /** How much a run of write calls takes of len bytes. It ends with the first error. */
  function Taken(outcomes: seq<int>, len: nat): (n: nat)
    ensures n <= len
    decreases outcomes
  {
    if len == 0 || outcomes == [] || outcomes[0] < 0 then 0
    else if outcomes[0] >= len then len
    else outcomes[0] + Taken(outcomes[1..], len - outcomes[0])
  }

  /** All is taken exactly if the calls up to the first error take enough together. */
  function UntilError(outcomes: seq<int>): nat {
    if outcomes == [] || outcomes[0] < 0 then 0 else outcomes[0] + UntilError(outcomes[1..])
  }

  lemma {:induction false} TakenAll(outcomes: seq<int>, len: nat)
    ensures Taken(outcomes, len) == if UntilError(outcomes) >= len then len else UntilError(outcomes)
    decreases outcomes
  {
    if len > 0 && outcomes != [] && 0 <= outcomes[0] < len {
      TakenAll(outcomes[1..], len - outcomes[0]);
    }
  }

  /** Keeping a whole buffer of which n bytes were written preserves what the file and
      the buffer say together exactly if nothing was written. */
  lemma {:induction false} KeptBufferRepeats(file: seq<Byte>, buffered: seq<Byte>, n: nat)
    requires n <= |buffered|
    ensures file + buffered[..n] + buffered == file + buffered <==> n == 0
  {
    if n == 0 {
      assert file + buffered[..n] == file;
    } else {
      assert |file + buffered[..n] + buffered| > |file + buffered|;
    }
  }

  /** What a gathering write that may return `gathered` takes of the bytes it is given. */
  function GatheredPart(all: seq<Byte>, gathered: nat): seq<Byte> {
    if gathered < |all| then all[..gathered] else all
  }

  class LogFile {
    const bufLen: nat
    var isOpen: bool
    // what the system has of the file
    var file: seq<Byte>
    var buffer: array<Byte>
    var dataLen: nat
    var size: nat
    // the size of the directory
    var dirSize: nat

    /** What was accepted and not lost. */
    ghost function Stream(): seq<Byte>
      reads this, buffer
      requires dataLen <= buffer.Length
    {
      file + buffer[..dataLen]
    }

    ghost predicate Valid()
      reads this
    {
      buffer.Length == bufLen > 0 && dataLen < bufLen && (!isOpen ==> dataLen == 0)
    }

    constructor (length: nat)
      requires length > 0
      ensures Valid() && isOpen && file == [] && dataLen == size == dirSize == 0 && bufLen == length && fresh(buffer)
    {
      bufLen := length;
      isOpen, file, dataLen, size, dirSize := true, [], 0, 0, 0;
      buffer := new Byte[length](_ => 0);
    }

    method WriteData(data: seq<Byte>, outcomes: seq<int>) returns (n: int)
      modifies this`file
      ensures !isOpen ==> n == -1 && file == old(file)
      ensures isOpen ==> n == Taken(outcomes, |data|) && file == old(file) + data[..n]
    {
      if !isOpen {
        return -1;
      }
      var numWritten: nat := 0;
      var i := 0;
      while numWritten < |data|
        invariant i <= |outcomes| && numWritten <= |data|
        invariant Taken(outcomes, |data|) == numWritten + Taken(outcomes[i..], |data| - numWritten)
        invariant file == old(file) + data[..numWritten]
        decreases |outcomes| - i
      {
        if i == |outcomes| || outcomes[i] < 0 {
          break;
        }
        var left := |data| - numWritten;
        var k := if outcomes[i] > left then left else outcomes[i];
        assert outcomes[i..][1..] == outcomes[i + 1..];
        assert data[..numWritten] + data[numWritten..numWritten + k] == data[..numWritten + k];
        file := file + data[numWritten..numWritten + k];
        numWritten := numWritten + k;
        i := i + 1;
      }
      n := numWritten;
    }

    /** Writes a block, through the buffer if it fits. `gathered` is what a gathering write
        of the buffer and the block returns, `noSpace` whether an error means a full disk.
        Whatever the calls return, the file and the buffer together grow by exactly the
        part that is reported as written, and so do the sizes. A block that does not fit
        reaches the file as far as the calls take it, behind what was buffered, and what is
        reported is the part of the block in that. */
    method Write(data: seq<Byte>, simpleWrite: bool, gathered: int, outcomes: seq<int>, noSpace: bool)
      returns (n: int)
      requires Valid()
      modifies this`file, this`dataLen, this`size, this`dirSize, buffer
      ensures Valid() && n <= |data|
      ensures var accepted := if n > 0 then n else 0;
        && Stream() == old(Stream()) + data[..accepted]
        && size == old(size) + accepted
        && dirSize == old(dirSize) + (if simpleWrite then accepted else 0)
      ensures !isOpen ==> n == -1
      ensures isOpen && |data| + old(dataLen) < bufLen ==> n == |data| && file == old(file)
      ensures n < 0 && isOpen ==> old(dataLen) > 0 && gathered < 0 && n == (if noSpace then -2 else -1)
      ensures isOpen && |data| >= bufLen && old(dataLen) == 0 ==>
        n == Taken(outcomes, |data|) && file == old(file) + data[..n]
      ensures isOpen && |data| + old(dataLen) >= bufLen && old(dataLen) > 0 ==>
        if gathered >= 0 then
          && file == old(file) + GatheredPart(old(buffer[..dataLen]) + data, gathered)
          && n == (if |file| > |old(file)| + old(dataLen) then |file| - |old(file)| - old(dataLen) else 0)
        else
          n == (if noSpace then -2 else -1) && file == old(file)
    {
      if !isOpen {
        return -1;
      }
      if |data| + dataLen < bufLen {
        Append(data);
        size := size + |data|;
        if simpleWrite {
          dirSize := dirSize + |data|;
        }
        assert data[..|data|] == data;
        n := |data|;
      } else {
        if dataLen > 0 {
          n := Gather(data, gathered);
        } else {
          n := WriteData(data, outcomes);
          assert buffer[..0] == [];
        }
        if n > 0 {
          size := size + n;
          if simpleWrite {
            dirSize := dirSize + n;
          }
        }
        if n < 0 && noSpace {
          n := -2;
        }
      }
    }

    /** memcpy behind the buffered data. */
    method Append(data: seq<Byte>)
      requires Valid() && |data| + dataLen < bufLen
      modifies this`dataLen, buffer
      ensures dataLen == old(dataLen) + |data| && buffer[..dataLen] == old(buffer[..dataLen]) + data
    {
      for i := 0 to |data|
        invariant dataLen == old(dataLen) && buffer == old(buffer)
        invariant buffer[..dataLen] == old(buffer[..dataLen])
        invariant forall k :: 0 <= k < i ==> buffer[dataLen + k] == data[k]
      {
        buffer[dataLen + i] := data[i];
      }
      dataLen := dataLen + |data|;
    }

    /** One write of the buffer and the block. It may end within the buffer, whose rest
        is then moved to the front. */
    method Gather(data: seq<Byte>, gathered: int) returns (n: int)
      requires Valid() && dataLen > 0
      modifies this`file, this`dataLen, buffer
      ensures dataLen <= old(dataLen) && n <= |data|
      ensures gathered < 0 ==> n == -1 && file == old(file) && buffer[..dataLen] == old(buffer[..dataLen])
      ensures gathered >= 0 ==>
        && n == (if |file| > |old(file)| + old(dataLen) then |file| - |old(file)| - old(dataLen) else 0)
        && Stream() == old(Stream()) + data[..n]
        && file == old(file) + GatheredPart(old(buffer[..dataLen]) + data, gathered)
      ensures gathered >= old(dataLen) ==> dataLen == 0
      ensures dataLen > 0 && gathered >= 0 ==> n == 0
    {
      if gathered < 0 {
        return -1;
      }
      ghost var both := buffer[..dataLen] + data;
      var all := dataLen + |data|;
      n := if gathered > all then all else gathered;
      if n >= dataLen {
        n := n - dataLen;
        file := file + buffer[..dataLen] + data[..n];
        assert both[..dataLen + n] == buffer[..dataLen] + data[..n];
        dataLen := 0;
        assert Stream() == file;
      } else {
        assert both[..n] == buffer[..n];
        WritePart(n);
        n := 0;
        assert data[..n] == [];
      }
    }

    /** Only part of the buffer was written. */
    method WritePart(n: nat)
      requires Valid() && n < dataLen
      modifies this`file, this`dataLen, buffer
      ensures dataLen == old(dataLen) - n && Stream() == old(Stream())
      ensures file == old(file) + old(buffer[..n])
    {
      ghost var buffered := buffer[..dataLen];
      assert buffered == buffered[..n] + buffered[n..];
      file := file + buffer[..n];
      MoveDown(n);
    }

    /** memmove of what is left to the front of the buffer. */
    method MoveDown(n: nat)
      requires Valid() && n <= dataLen
      modifies this`dataLen, buffer
      ensures dataLen == old(dataLen) - n && buffer[..dataLen] == old(buffer[n..dataLen])
    {
      var left := dataLen - n;
      for i := 0 to left
        invariant forall k :: 0 <= k < i ==> buffer[k] == old(buffer[n + k])
        invariant forall k :: i <= k < bufLen ==> buffer[k] == old(buffer[k])
      {
        buffer[i] := buffer[n + i];
      }
      dataLen := left;
    }

    /** Flushes the buffer. Nothing is lost or repeated exactly if all of it or none of it
        was written: after a short write the buffer is kept as a whole. */
    method Flush(outcomes: seq<int>) returns (ret: int)
      requires Valid()
      modifies this`file, this`dataLen
      ensures Valid() && (ret == 0 || ret == -1)
      ensures file == if isOpen then old(file) + old(buffer[..dataLen])[..Taken(outcomes, old(dataLen))] else old(file)
      ensures ret != 0 ==> dataLen == old(dataLen)
      ensures var n := Taken(outcomes, old(dataLen));
        && (ret == 0 <==> !isOpen || n == old(dataLen))
        && (Stream() == old(Stream()) <==> !isOpen || n == 0 || n == old(dataLen))
        && (ret == 0 && isOpen ==> dataLen == 0)
    {
      ret := 0;
      if isOpen && dataLen > 0 {
        ghost var buffered := buffer[..dataLen];
        var n := WriteData(buffer[..dataLen], outcomes);
        KeptBufferRepeats(old(file), buffered, n);
        assert buffered[..|buffered|] == buffered;
        if n == dataLen {
          dataLen := 0;
          assert Stream() == file;
        } else {
          ret := -1;
        }
      }
    }

    /** Closes the file. What the last write does not take is lost. */
    method Close(outcomes: seq<int>)
      requires Valid()
      modifies this`isOpen, this`file, this`dataLen
      ensures Valid() && !isOpen && dataLen == 0
      ensures file == if old(isOpen) then old(file) + old(buffer[..dataLen])[..Taken(outcomes, old(dataLen))] else old(file)
      ensures Stream() == old(Stream()) <==> !old(isOpen) || Taken(outcomes, old(dataLen)) == old(dataLen)
    {
      if isOpen {
        ghost var buffered := buffer[..dataLen];
        assert buffered[..|buffered|] == buffered;
        if dataLen > 0 {
          var _ := WriteData(buffer[..dataLen], outcomes);
        }
        isOpen := false;
        dataLen := 0;
        assert Stream() == file;
      }
    }
  }
}
