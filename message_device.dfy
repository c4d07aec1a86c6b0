/**
 * The single global message device of the simplechar driver: a 256-byte
 * message buffer with a logical length, and the open, read, write and
 * release file operations the host dispatches to it.
 *
 * The user/kernel copy primitives are not modelled as address-space
 * operations: each read and write receives `notCopied`, the number of
 * bytes the host's copy fails to transfer (the value `copy_to_user` and
 * `copy_from_user` return, which never exceeds the request).
 */
module MessageDevice {
  import opened CString

  /** sizeof(message): the buffer's capacity, one byte of it kept for the terminator. */
  const BufferSize: nat := 256
  /** The largest message a write accepts. */
  const MaxMessage: nat := BufferSize - 1

  /** Linux errno values, returned negated. */
  const EFAULT: int := 14
  const EINVAL: int := 22

  function Min(a: nat, b: nat): nat
  {
    if a <= b then a else b
  }

  /** What a read of `count` bytes at cursor `offset` delivers from the
      stored message `s` when the copy succeeds. */
  function Window(s: seq<bv8>, offset: nat, count: nat): seq<bv8>
  {
    if offset >= |s| then [] else s[offset..offset + Min(count, |s| - offset)]
  }

  /** A read never delivers more than was asked for, and everything it
      delivers lies between the cursor and the end of the message. */
  lemma WindowBounds(s: seq<bv8>, offset: nat, count: nat)
    ensures |Window(s, offset, count)| <= count
    ensures offset + |Window(s, offset, count)| <= if offset <= |s| then |s| else offset
    ensures Window(s, offset, count) == [] <==> offset >= |s| || count == 0
  {
  }

  function Sum(counts: seq<nat>): nat
  {
    if counts == [] then 0 else counts[0] + Sum(counts[1..])
  }

  /** The bytes a caller collects by issuing successful reads of the given
      sizes one after the other, each starting where the previous one
      left the cursor. */
  function Drain(s: seq<bv8>, offset: nat, counts: seq<nat>): seq<bv8>
    decreases |counts|
  {
    if counts == [] then []
    else
      var w := Window(s, offset, counts[0]);
      w + Drain(s, offset + |w|, counts[1..])
  }

  /** Partial reads accumulate: reads of any sizes, chained through the
      cursor, deliver the message from the starting cursor onward, up to
      the total requested or the end of the message, whichever is first. */
  lemma {:induction false} DrainIsSlice(s: seq<bv8>, offset: nat, counts: seq<nat>)
    ensures offset >= |s| ==> Drain(s, offset, counts) == []
    ensures offset < |s| ==> Drain(s, offset, counts) == s[offset..offset + Min(Sum(counts), |s| - offset)]
    decreases |counts|
  {
    if counts != [] {
      var w := Window(s, offset, counts[0]);
      DrainIsSlice(s, offset + |w|, counts[1..]);
      if offset < |s| {
        var n := Min(counts[0], |s| - offset);
        assert w == s[offset..offset + n];
        if offset + n < |s| {
          assert n == counts[0];
          var m := Min(Sum(counts[1..]), |s| - offset - n);
          assert s[offset..offset + n] + s[offset + n..offset + n + m] == s[offset..offset + n + m];
        } else {
          assert s[offset..offset + n] == s[offset..|s|];
        }
      }
    }
  }

  /** Reading from the start with requests that add up to at least the
      message length yields exactly the stored message. */
  lemma ReadsFromStartRecoverMessage(s: seq<bv8>, counts: seq<nat>)
    requires Sum(counts) >= |s|
    ensures Drain(s, 0, counts) == s
  {
    DrainIsSlice(s, 0, counts);
  }

  /** Two successive reads deliver the same bytes as one read of their
      combined size. */
  lemma {:induction false} SplitRead(s: seq<bv8>, offset: nat, c1: nat, c2: nat)
    ensures Window(s, offset, c1) + Window(s, offset + |Window(s, offset, c1)|, c2) == Window(s, offset, c1 + c2)
  {
    var w := Window(s, offset, c1);
    if offset < |s| && offset + |w| < |s| {
      var n := |w|;
      var m := Min(c2, |s| - offset - n);
      assert s[offset..offset + n] + s[offset + n..offset + n + m] == s[offset..offset + n + m];
    }
  }

  /** Write then read: once a write has stored `data[..Length(data)]`, a
      read from cursor 0 asking for at least that many bytes returns it, and
      returns all of `data` when `data` holds no zero byte. */
  lemma WriteReadRoundTrip(data: seq<bv8>, count: nat)
    requires count >= Length(data)
    ensures Window(data[..Length(data)], 0, count) == data[..Length(data)]
    ensures (forall i :: 0 <= i < |data| ==> data[i] != 0) ==> Window(data[..Length(data)], 0, count) == data
  {
    LengthWithoutZero(data);
  }

  /** The device state: the global `message` buffer and `size_of_message`. */
  class Device {
    var message: array<bv8>
    var size: int

    ghost predicate Valid()
      reads this
    {
      message.Length == BufferSize && 0 <= size <= MaxMessage
    }

    /** The message a reader currently sees. */
    ghost function Stored(): seq<bv8>
      reads this, message
      requires Valid()
    {
      message[..size]
    }

    /** The device as it is when the module loads: all zero, length 0. */
    constructor ()
      ensures Valid() && fresh(message)
      ensures forall i :: 0 <= i < BufferSize ==> message[i] == 0
      ensures size == 0 && Stored() == []
    {
      message := new bv8[BufferSize](_ => 0);
      size := 0;
    }

    /** dev_open: always succeeds and touches no device state. */
    method Open() returns (r: int)
      ensures r == 0
    {
      r := 0;
    }

    /** dev_release: always succeeds and touches no device state. */
    method Release() returns (r: int)
      ensures r == 0
    {
      r := 0;
    }

    /** dev_read: copy up to `count` bytes of the message, starting at the
        caller's cursor `offset`, and return the count with the new cursor.
        The device itself is never changed by a read. */
    method Read(count: nat, offset: nat, notCopied: nat) returns (r: int, delivered: seq<bv8>, newOffset: nat)
      requires Valid()
      // end of stream: nothing copied, cursor untouched
      ensures offset >= size ==> r == 0 && delivered == [] && newOffset == offset
      // the count is clamped to what remains; a successful copy advances the cursor
      ensures offset < size && (notCopied == 0 || Min(count, size - offset) == 0) ==>
        r == Min(count, size - offset) && delivered == message[offset..offset + r] && newOffset == offset + r
      // a failed copy reports -EFAULT, delivers only what arrived and leaves the cursor
      ensures offset < size && notCopied > 0 && Min(count, size - offset) > 0 ==>
        r == -EFAULT && newOffset == offset &&
        delivered == message[offset..offset + Min(count, size - offset) - Min(notCopied, Min(count, size - offset))]
      // every successful read is a window of the stored message and never passes its end
      ensures r >= 0 ==> delivered == Window(Stored(), offset, count) && newOffset == offset + r
      ensures r >= 0 ==> r <= count && (offset < size ==> newOffset <= size)
      ensures r >= 0 || r == -EFAULT
    {
      if offset >= size {
        assert Window(Stored(), offset, count) == [];
        return 0, [], offset;
      }
      var len := count;
      if len > size - offset {
        len := size - offset;
      }
      assert len == Min(count, size - offset);
      var errorCount := Min(notCopied, len);
      delivered := message[offset..offset + len - errorCount];
      if errorCount == 0 {
        assert offset + len <= size;
        assert delivered == message[offset..offset + len];
        assert message[offset..offset + len] == message[..size][offset..offset + len];
        assert Window(Stored(), offset, count) == Stored()[offset..offset + len];
        newOffset := offset + len;
        r := len;
      } else {
        newOffset := offset;
        r := -EFAULT;
      }
    }

    /** dev_write: store `data` (the caller's `len` bytes) at the start of
        the buffer, whatever the caller's cursor `offset` says, terminate
        it, and recompute the length as the C string length. */
    method Write(data: seq<bv8>, offset: nat, notCopied: nat) returns (r: int)
      requires Valid()
      modifies this, message
      ensures Valid() && message == old(message)
      // too long: rejected before any copy
      ensures |data| > MaxMessage ==>
        r == -EINVAL && message[..] == old(message[..]) && size == old(size)
      // success: data at offset 0, NUL after it, the rest untouched, the
      // length recomputed up to the first zero byte, the request echoed
      ensures |data| <= MaxMessage && Min(notCopied, |data|) == 0 ==>
        && r == |data|
        && message[..|data|] == data
        && message[|data|] == 0
        && message[|data| + 1..] == old(message[|data| + 1..])
        && size == Length(data) <= |data|
        && Stored() == data[..Length(data)]
      // failed copy: -EFAULT, length kept, only the bytes that arrived are
      // known, nothing at or past `len` changed
      ensures |data| <= MaxMessage && Min(notCopied, |data|) > 0 ==>
        && r == -EFAULT
        && size == old(size)
        && message[..|data| - Min(notCopied, |data|)] == data[..|data| - Min(notCopied, |data|)]
        && message[|data|..] == old(message[|data|..])
    {
      if |data| > MaxMessage {
        return -EINVAL;
      }
      var notCopiedCount := Min(notCopied, |data|);
      var arrived := |data| - notCopiedCount;
      forall i | 0 <= i < arrived {
        message[i] := data[i];
      }
      if notCopiedCount == 0 {
        message[|data|] := 0;
        assert message[..] == data + [0] + old(message[|data| + 1..]);
        size := ScanLength(message);
        LengthOfTerminated(data, old(message[|data| + 1..]));
        r := |data|;
      } else {
        r := -EFAULT;
      }
    }
  }

  /** Write then read through the device: a message with no zero byte,
      written at any cursor and read back from cursor 0 with a large enough
      request, comes back whole, and the write reports its full length. */
  method WriteThenRead(dev: Device, data: seq<bv8>, cursor: nat, count: nat) returns (w: int, got: seq<bv8>)
    requires dev.Valid()
    requires |data| <= MaxMessage && count >= |data|
    requires forall i :: 0 <= i < |data| ==> data[i] != 0
    modifies dev, dev.message
    ensures w == |data| && got == data
  {
    LengthWithoutZero(data);
    w := dev.Write(data, cursor, 0);
    var r, pos;
    r, got, pos := dev.Read(count, 0, 0);
  }

  /** The concrete session: write "hello", read it back, read again at
      the end, then try a 256-byte write. */
  method HelloSession()
  {
    var dev := new Device();
    var hello: seq<bv8> := [0x68, 0x65, 0x6c, 0x6c, 0x6f];
    LengthWithoutZero(hello);
    var w := dev.Write(hello, 0, 0);
    assert w == 5;
    var r, got, pos := dev.Read(100, 0, 0);
    assert r == 5 && got == hello && pos == 5;
    r, got, pos := dev.Read(100, pos, 0);
    assert r == 0 && got == [] && pos == 5;
    var zeros: seq<bv8> := seq(256, _ => 0);
    w := dev.Write(zeros, 0, 0);
    assert w == -EINVAL && dev.Stored() == hello;
  }
}
