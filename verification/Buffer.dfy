/** The network byte buffer: one array with a prepend area, a readable stretch
    and a writable tail. Every operation is proved against the plain byte
    sequence `Contents()`. */
module Buffers {
  import opened Basics

  const CHEAP_PREPEND: nat := 8
  const INITIAL_SIZE: nat := 1024
  const EXTRA_BUFFER: nat := 65536
  const CRLF: string := "\r\n"

  /** What readv reports: an error, or the bytes it delivered (none at end of file). */
  datatype ReadOutcome = ReadFailed | Received(data: string)

  /** What write and writev report. */
  datatype WriteOutcome = WouldBlock | WriteFailed | Accepted(count: nat)

  predicate CRLFAt(s: string, i: int) { 0 <= i && i + 1 < |s| && s[i] == '\r' && s[i + 1] == '\n' }

  ghost predicate HasCRLF(s: string) { exists i :: CRLFAt(s, i) }

  /** memmem for the two-byte line end: its first occurrence at or after `from`. */
  function FindCRLF(s: string, from: nat): (r: Option<nat>)
    ensures r.Some? ==> from <= r.value && CRLFAt(s, r.value)
    ensures r.Some? ==> forall i :: from <= i < r.value ==> !CRLFAt(s, i)
    ensures r.None? ==> forall i :: from <= i ==> !CRLFAt(s, i)
    decreases |s| - from
  {
    if from + 1 >= |s| then None
    else if CRLFAt(s, from) then Some(from)
    else FindCRLF(s, from + 1)
  }

  lemma FindCRLFIs(s: string, at: nat)
    requires CRLFAt(s, at) && forall i :: 0 <= i < at ==> !CRLFAt(s, i)
    ensures FindCRLF(s, 0) == Some(at)
  {
    var r := FindCRLF(s, 0);
    assert r.Some?;
    assert !(r.value < at);
    assert !(at < r.value);
  }

  /** A line without a carriage return ends where it is followed by CR and LF. */
  lemma LineEndFound(line: string, rest: string)
    requires '\r' !in line
    ensures FindCRLF(line + "\r\n" + rest, 0) == Some(|line|)
    ensures CRLF == "\r\n"
  {
    var s := line + "\r\n" + rest;
    assert CRLFAt(s, |line|);
    FindCRLFIs(s, |line|);
  }

  /** More bytes never move a line end that was already there. */
  lemma FindCRLFStable(s: string, t: string)
    requires FindCRLF(s, 0).Some?
    ensures FindCRLF(s + t, 0) == FindCRLF(s, 0)
  {
    var at := FindCRLF(s, 0).value;
    forall i | 0 <= i < at
      ensures !CRLFAt(s + t, i)
    {
      assert !CRLFAt(s, i);
    }
    FindCRLFIs(s + t, at);
  }

  /** std::copy within one array, front to back: right for overlapping ranges when it goes left. */
  method CopyLeft(a: array<char>, from: nat, dest: nat, count: nat)
    requires dest < from && from + count <= a.Length
    modifies a
    ensures a[dest..dest + count] == old(a[from..from + count])
  {
    ghost var was := a[..];
    var k := 0;
    while k < count
      invariant k <= count
      invariant forall i :: dest <= i < dest + k ==> a[i] == was[from - dest + i]
      invariant forall i :: from + k <= i < a.Length ==> a[i] == was[i]
    {
      a[dest + k] := a[from + k];
      k := k + 1;
    }
  }

  class Buffer {
    var store: array<char>
    var readIndex: nat
    var writeIndex: nat

    ghost predicate Valid()
      reads this
    {
      CHEAP_PREPEND <= store.Length && readIndex <= writeIndex <= store.Length
    }

    /** The readable bytes. */
    ghost function Contents(): string
      requires Valid()
      reads this, store
    {
      store[readIndex..writeIndex]
    }

    function ReadableBytes(): nat
      requires Valid()
      reads this
    {
      writeIndex - readIndex
    }

    function WritableBytes(): nat
      requires Valid()
      reads this
    {
      store.Length - writeIndex
    }

    function PrependableBytes(): nat
      reads this
    {
      readIndex
    }

    /** How much one readFd may deliver: the tail, and 64 KiB on the stack when the tail is smaller. */
    function ReadCapacity(): (n: nat)
      requires Valid()
      reads this
      ensures n >= 65536 && n >= WritableBytes()
    {
      if WritableBytes() < EXTRA_BUFFER then WritableBytes() + EXTRA_BUFFER else WritableBytes()
    }

    constructor (initialSize: nat)
      ensures Valid() && fresh(store)
      ensures Contents() == [] && WritableBytes() == initialSize && PrependableBytes() == CHEAP_PREPEND == 8
    {
      store := new char[CHEAP_PREPEND + initialSize](_ => 0 as char);
      readIndex := CHEAP_PREPEND;
      writeIndex := CHEAP_PREPEND;
    }

    method RetrieveAll()
      requires Valid()
      modifies this
      ensures Valid() && store == old(store)
      ensures Contents() == [] && readIndex == CHEAP_PREPEND
    {
      readIndex := CHEAP_PREPEND;
      writeIndex := CHEAP_PREPEND;
    }

    /** Consumes `len` bytes; consuming everything also takes the indices back to the front. */
    method Retrieve(len: nat)
      requires Valid() && len <= ReadableBytes()
      modifies this
      ensures Valid() && store == old(store)
      ensures Contents() == old(Contents())[len..]
      ensures Contents() == [] ==> readIndex == CHEAP_PREPEND
    {
      if len < ReadableBytes() {
        readIndex := readIndex + len;
      } else {
        RetrieveAll();
      }
    }

    method RetrieveAsString(len: nat) returns (result: string)
      requires Valid() && len <= ReadableBytes()
      modifies this
      ensures Valid() && store == old(store)
      ensures result + Contents() == old(Contents()) && |result| == len
    {
      result := store[readIndex..readIndex + len];
      Retrieve(len);
    }

    /** Either a larger array, or a move of the readable bytes to the front. The
        move copies forward over itself and is only right because it goes left. */
    method MakeSpace(len: nat)
      requires Valid() && WritableBytes() < len
      modifies this, store
      ensures Valid() && (store == old(store) || fresh(store))
      ensures Contents() == old(Contents())
      ensures WritableBytes() >= len
      ensures old(WritableBytes() + PrependableBytes()) < len + CHEAP_PREPEND
              <==> fresh(store) && store.Length == old(writeIndex) + len && readIndex == old(readIndex)
      ensures store == old(store) ==> old(readIndex) > readIndex == CHEAP_PREPEND
    {
      if WritableBytes() + PrependableBytes() < len + CHEAP_PREPEND {
        var bigger := new char[writeIndex + len](_ => 0 as char);
        forall i | 0 <= i < store.Length {
          bigger[i] := store[i];
        }
        store := bigger;
      } else {
        var readable := ReadableBytes();
        CopyLeft(store, readIndex, CHEAP_PREPEND, readable);
        readIndex := CHEAP_PREPEND;
        writeIndex := readIndex + readable;
      }
    }

    method EnsureWritableBytes(len: nat)
      requires Valid()
      modifies this, store
      ensures Valid() && (store == old(store) || fresh(store))
      ensures Contents() == old(Contents())
      ensures WritableBytes() >= len
    {
      if WritableBytes() < len {
        MakeSpace(len);
      }
    }

    /** Copies bytes into the writable tail, which must have room for them. */
    method Fill(data: string)
      requires Valid() && |data| <= WritableBytes()
      modifies this, store
      ensures Valid() && store == old(store)
      ensures Contents() == old(Contents()) + data
      ensures readIndex == old(readIndex) && writeIndex == old(writeIndex) + |data|
    {
      forall i | 0 <= i < |data| {
        store[writeIndex + i] := data[i];
      }
      writeIndex := writeIndex + |data|;
      assert store[writeIndex - |data|..writeIndex] == data;
      assert Contents() == store[readIndex..writeIndex - |data|] + store[writeIndex - |data|..writeIndex];
    }

    method Append(data: string)
      requires Valid()
      modifies this, store
      ensures Valid() && (store == old(store) || fresh(store))
      ensures Contents() == old(Contents()) + data
    {
      EnsureWritableBytes(|data|);
      Fill(data);
    }

    /** Puts bytes in front when the prepend area has room; otherwise it only logs. */
    method Prepend(data: string)
      requires Valid()
      modifies this, store
      ensures Valid() && store == old(store)
      ensures |data| <= old(PrependableBytes()) ==> Contents() == data + old(Contents())
      ensures |data| > old(PrependableBytes()) ==> Contents() == old(Contents())
      ensures writeIndex == old(writeIndex)
    {
      if |data| > PrependableBytes() {
        return;
      }
      ghost var before := Contents();
      readIndex := readIndex - |data|;
      forall i | 0 <= i < |data| {
        store[readIndex + i] := data[i];
      }
      assert store[readIndex..readIndex + |data|] == data;
      assert store[readIndex + |data|..writeIndex] == before;
      assert Contents() == store[readIndex..readIndex + |data|] + store[readIndex + |data|..writeIndex];
    }

    /** The first `len` readable bytes, left where they are. */
    method Peek(len: nat) returns (bytes: string)
      requires Valid() && len <= ReadableBytes()
      ensures bytes == Contents()[..len]
    {
      bytes := store[readIndex..readIndex + len];
      ghost var all := Contents();
      assert |bytes| == |all[..len]| && forall i :: 0 <= i < len ==> bytes[i] == all[..len][i];
    }

    /** findCRLF: the offset of the first line end in the readable bytes. */
    method FindLineEnd() returns (pos: Option<nat>)
      requires Valid()
      ensures pos == FindCRLF(Contents(), 0)
    {
      pos := FindCRLF(store[readIndex..writeIndex], 0);
    }

    /** One scattered read: the tail first, the rest through the stack buffer. */
    method ReadFd(outcome: ReadOutcome) returns (n: int)
      requires Valid()
      requires outcome.Received? ==> |outcome.data| <= ReadCapacity()
      modifies this, store
      ensures Valid() && (store == old(store) || fresh(store))
      ensures outcome.ReadFailed? ==> n == -1 && Contents() == old(Contents())
      ensures outcome.Received? ==> n == |outcome.data| && Contents() == old(Contents()) + outcome.data
    {
      if outcome.ReadFailed? {
        return -1;
      }
      n := |outcome.data|;
      var writable := WritableBytes();
      if n <= writable {
        Fill(outcome.data);
      } else {
        Fill(outcome.data[..writable]);
        Append(outcome.data[writable..]);
        assert outcome.data == outcome.data[..writable] + outcome.data[writable..];
      }
    }

    /** One gathered write of everything readable; what the kernel took is dropped. */
    method WriteFd(outcome: WriteOutcome) returns (n: int)
      requires Valid()
      requires outcome.Accepted? ==> outcome.count <= ReadableBytes()
      modifies this
      ensures Valid() && store == old(store)
      ensures old(ReadableBytes()) == 0 ==> n == 0 && Contents() == []
      ensures old(ReadableBytes()) > 0 && outcome.Accepted? ==>
                n == outcome.count && Contents() == old(Contents())[outcome.count..]
      ensures old(ReadableBytes()) > 0 && !outcome.Accepted? ==> n == -1 && Contents() == old(Contents())
    {
      var readable := ReadableBytes();
      if readable == 0 {
        return 0;
      }
      if !outcome.Accepted? {
        return -1;
      }
      n := outcome.count;
      if n < readable {
        Retrieve(n);
      } else {
        RetrieveAll();
      }
    }

    /** Gives memory back, unless that would not make the array smaller. */
    method Shrink(reserve: nat)
      requires Valid()
      modifies this
      ensures Valid() && (store == old(store) || fresh(store))
      ensures Contents() == old(Contents())
      ensures store.Length == Min(old(store.Length), CHEAP_PREPEND + ReadableBytes() + reserve)
      ensures store == old(store) ==> readIndex == old(readIndex)
      ensures store != old(store) ==> readIndex == CHEAP_PREPEND
    {
      var readable := ReadableBytes();
      var newCapacity := CHEAP_PREPEND + readable + reserve;
      if newCapacity >= store.Length {
        return;
      }
      var newBuffer := new char[newCapacity](_ => 0 as char);
      forall i | 0 <= i < readable {
        newBuffer[CHEAP_PREPEND + i] := store[readIndex + i];
      }
      assert newBuffer[CHEAP_PREPEND..CHEAP_PREPEND + readable] == Contents();
      store := newBuffer;
      readIndex := CHEAP_PREPEND;
      writeIndex := readIndex + readable;
    }
  }
}
