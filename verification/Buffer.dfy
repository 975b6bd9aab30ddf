/**
 The gap buffer of muduo/net/Buffer.h: one array with a prependable, a readable and a
 writable region. Every operation is specified on the readable bytes alone.
 */
module GapBuffer {
  import opened Bytes

  const CHEAP_PREPEND: nat := 8
  const INITIAL_SIZE: nat := 1024
  const EXTRA_BUF: nat := 65536

  /** Offset of the first CR LF in s, as std::search finds it. */
  function FindCRLF(s: bytes): Option<nat> {
    if |s| < 2 then None
    else if s[0] == 13 && s[1] == 10 then Some(0)
    else
      var rest := FindCRLF(s[1..]);
      if rest.Some? then Some(rest.value + 1) else None
  }

  ghost predicate CRLFAt(s: bytes, i: nat) {
    i + 1 < |s| && s[i] == 13 && s[i + 1] == 10
  }

  /** The search result is the leftmost match, and None exactly when there is none. */
  lemma {:induction false} FindCRLFIsLeftmost(s: bytes)
    ensures match FindCRLF(s)
            case Some(i) => CRLFAt(s, i) && forall k: nat :: k < i ==> !CRLFAt(s, k)
            case None => forall k: nat :: !CRLFAt(s, k)
  {
    if |s| >= 2 && !(s[0] == 13 && s[1] == 10) {
      FindCRLFIsLeftmost(s[1..]);
      forall k: nat | CRLFAt(s, k) ensures k > 0 && CRLFAt(s[1..], k - 1) {
      }
    }
  }

  function Max(a: nat, b: nat): nat {
    if a < b then b else a
  }

  /** The size of the array once there is room for len more bytes: only what sliding cannot make is added. */
  function Room(writable: nat, prependable: nat, writerIndex: nat, size: nat, len: nat): nat {
    if writable + prependable < len + CHEAP_PREPEND then writerIndex + len else size
  }

  class Buffer {
    var data: array<byte>
    var readerIndex: nat
    var writerIndex: nat

    ghost predicate Valid()
      reads this
    {
      CHEAP_PREPEND <= data.Length && readerIndex <= writerIndex <= data.Length
    }

    /** The readable bytes. */
    function Contents(): bytes
      requires Valid()
      reads this, data
    {
      data[readerIndex..writerIndex]
    }

    function ReadableBytes(): (n: nat)
      requires Valid()
      reads this, data
      ensures n == |Contents()|
    {
      writerIndex - readerIndex
    }

    function WritableBytes(): nat
      requires Valid()
      reads this
    {
      data.Length - writerIndex
    }

    function PrependableBytes(): nat
      reads this
    {
      readerIndex
    }

    constructor (initialSize: nat)
      ensures Valid() && fresh(data)
      ensures Contents() == []
      ensures WritableBytes() == initialSize && PrependableBytes() == CHEAP_PREPEND
    {
      data := new byte[CHEAP_PREPEND + initialSize](_ => 0);
      readerIndex := CHEAP_PREPEND;
      writerIndex := CHEAP_PREPEND;
    }

    method Retrieve(len: nat)
      requires Valid() && len <= ReadableBytes()
      modifies this
      ensures Valid() && data == old(data)
      ensures Contents() == old(Contents())[len..]
      ensures len == old(ReadableBytes()) ==> PrependableBytes() == CHEAP_PREPEND
    {
      if len < ReadableBytes() {
        readerIndex := readerIndex + len;
      } else {
        RetrieveAll();
      }
    }

    method RetrieveAll()
      requires Valid()
      modifies this
      ensures Valid() && data == old(data)
      ensures Contents() == [] && PrependableBytes() == CHEAP_PREPEND
    {
      readerIndex := CHEAP_PREPEND;
      writerIndex := CHEAP_PREPEND;
    }

    method RetrieveAsString(len: nat) returns (result: bytes)
      requires Valid() && len <= ReadableBytes()
      modifies this
      ensures Valid() && data == old(data)
      ensures result + Contents() == old(Contents()) && |result| == len
    {
      result := data[readerIndex..readerIndex + len];
      Retrieve(len);
    }

    /** Makes room for len more bytes: by growing the array, or by sliding the readable bytes to the front. */
    method MakeSpace(len: nat)
      requires Valid() && WritableBytes() < len
      modifies this, data
      ensures Valid() && (data == old(data) || fresh(data))
      ensures Contents() == old(Contents()) && WritableBytes() >= len
      ensures PrependableBytes() == old(PrependableBytes()) || PrependableBytes() == CHEAP_PREPEND
      ensures data.Length == Room(old(WritableBytes()), old(PrependableBytes()), old(writerIndex), old(data.Length), len)
    {
      if WritableBytes() + PrependableBytes() < len + CHEAP_PREPEND {
        var oldData := data;
        data := new byte[writerIndex + len](i requires 0 <= i reads oldData =>
          if i < oldData.Length then oldData[i] else 0);
      } else {
        assert CHEAP_PREPEND < readerIndex;
        var readable := ReadableBytes();
        forall i | 0 <= i < readable {
          data[CHEAP_PREPEND + i] := data[readerIndex + i];
        }
        readerIndex := CHEAP_PREPEND;
        writerIndex := readerIndex + readable;
        assert readable == ReadableBytes();
      }
    }

    method EnsureWritableBytes(len: nat)
      requires Valid()
      modifies this, data
      ensures Valid() && (data == old(data) || fresh(data))
      ensures Contents() == old(Contents()) && WritableBytes() >= len
      ensures PrependableBytes() == old(PrependableBytes()) || PrependableBytes() == CHEAP_PREPEND
      ensures old(WritableBytes()) >= len ==> data == old(data) && writerIndex == old(writerIndex)
      ensures old(WritableBytes()) < len ==>
                data.Length == Room(old(WritableBytes()), old(PrependableBytes()), old(writerIndex), old(data.Length), len)
    {
      if WritableBytes() < len {
        MakeSpace(len);
      }
      assert WritableBytes() >= len;
    }

    method Append(str: bytes)
      requires Valid()
      modifies this, data
      ensures Valid() && (data == old(data) || fresh(data))
      ensures Contents() == old(Contents()) + str
      ensures PrependableBytes() == old(PrependableBytes()) || PrependableBytes() == CHEAP_PREPEND
      ensures |str| <= old(WritableBytes()) ==> data == old(data) && writerIndex == old(writerIndex) + |str|
    {
      EnsureWritableBytes(|str|);
      CopyToEnd(str);
    }

    /** Copy to beginWrite(), then hasWritten(). */
    method CopyToEnd(str: bytes)
      requires Valid() && |str| <= WritableBytes()
      modifies this`writerIndex, data
      ensures Valid() && writerIndex == old(writerIndex) + |str|
      ensures Contents() == old(Contents()) + str
    {
      forall i | 0 <= i < |str| {
        data[writerIndex + i] := str[i];
      }
      writerIndex := writerIndex + |str|;
    }

    method Unwrite(len: nat)
      requires Valid() && len <= ReadableBytes()
      modifies this
      ensures Valid() && data == old(data)
      ensures Contents() == old(Contents())[..old(ReadableBytes()) - len]
    {
      writerIndex := writerIndex - len;
    }

    method Prepend(str: bytes)
      requires Valid() && |str| <= PrependableBytes()
      modifies this, data
      ensures Valid() && data == old(data)
      ensures Contents() == str + old(Contents())
      ensures PrependableBytes() == old(PrependableBytes()) - |str|
    {
      readerIndex := readerIndex - |str|;
      forall i | 0 <= i < |str| {
        data[readerIndex + i] := str[i];
      }
    }

    method Shrink(reserve: nat)
      requires Valid()
      modifies this
      ensures Valid() && fresh(data)
      ensures Contents() == old(Contents()) && WritableBytes() >= reserve
      ensures PrependableBytes() == CHEAP_PREPEND
      ensures data.Length == CHEAP_PREPEND + Max(INITIAL_SIZE, |Contents()| + reserve)
    {
      var other := new Buffer(INITIAL_SIZE);
      other.EnsureWritableBytes(ReadableBytes() + reserve);
      other.Append(Contents());
      data, readerIndex, writerIndex := other.data, other.readerIndex, other.writerIndex;
    }

    /**
     One scatter read. The kernel's answer is `got`: None for an error, otherwise bytes that
     fill the writable region first and a 64 KiB stack buffer after it.
     */
    method ReadFd(got: Option<bytes>) returns (n: int)
      requires Valid()
      requires got.Some? ==>
                 |got.value| <= WritableBytes() + (if WritableBytes() < EXTRA_BUF then EXTRA_BUF else 0)
      modifies this, data
      ensures Valid() && (data == old(data) || fresh(data))
      ensures got.None? ==> n < 0 && Contents() == old(Contents())
      ensures got.Some? ==> n == |got.value| && Contents() == old(Contents()) + got.value
    {
      var writable := WritableBytes();
      if got.None? {
        return -1;
      }
      n := |got.value|;
      if n <= writable {
        CopyToEnd(got.value);
      } else {
        CopyToEnd(got.value[..writable]);
        Append(got.value[writable..]);
        assert got.value == got.value[..writable] + got.value[writable..];
      }
    }

    /** appendInt8/16/32/64, with width 1, 2, 4 or 8. */
    method AppendInt(x: int, width: nat)
      requires Valid() && Fits(x, width)
      modifies this, data
      ensures Valid() && (data == old(data) || fresh(data))
      ensures Contents() == old(Contents()) + EncodeInt(x, width)
      ensures PrependableBytes() == old(PrependableBytes()) || PrependableBytes() == CHEAP_PREPEND
    {
      Append(EncodeInt(x, width));
    }

    /** prependInt8/16/32/64. */
    method PrependInt(x: int, width: nat)
      requires Valid() && Fits(x, width) && width <= PrependableBytes()
      modifies this, data
      ensures Valid() && data == old(data)
      ensures Contents() == EncodeInt(x, width) + old(Contents())
    {
      Prepend(EncodeInt(x, width));
    }

    /** peekInt8/16/32/64. */
    method PeekInt(width: nat) returns (x: int)
      requires Valid() && 1 <= width <= ReadableBytes()
      ensures Fits(x, width) && EncodeInt(x, width) == Contents()[..width]
    {
      EncodeDecodeInt(Contents()[..width]);
      x := DecodeInt(data[readerIndex..readerIndex + width]);
      assert data[readerIndex..readerIndex + width] == Contents()[..width];
    }

    /** readInt8/16/32/64: undoes AppendInt at the other end of the queue. */
    method ReadInt(width: nat) returns (x: int)
      requires Valid() && 1 <= width <= ReadableBytes()
      modifies this
      ensures Valid() && data == old(data)
      ensures Fits(x, width) && EncodeInt(x, width) + Contents() == old(Contents())
    {
      x := PeekInt(width);
      Retrieve(width);
    }
  }

  /** An integer written with a given width in bytes. */
  datatype Field = Field(value: int, width: nat)

  predicate WellFormed(fs: seq<Field>) {
    forall i :: 0 <= i < |fs| ==> Fits(fs[i].value, fs[i].width)
  }

  /** What a run of AppendInt calls leaves in an empty buffer. */
  function Written(fs: seq<Field>): bytes
    requires WellFormed(fs)
  {
    if fs == [] then [] else EncodeInt(fs[0].value, fs[0].width) + Written(fs[1..])
  }

  /** What a run of ReadInt calls of the given widths returns, and what it leaves. */
  function ReadBack(s: bytes, widths: seq<nat>): Option<(seq<int>, bytes)> {
    if widths == [] then Some(([], s))
    else if |s| < widths[0] then None
    else
      var rest :- ReadBack(s[widths[0]..], widths[1..]);
      Some(([DecodeInt(s[..widths[0]])] + rest.0, rest.1))
  }

  function Values(fs: seq<Field>): seq<int> {
    seq(|fs|, i requires 0 <= i < |fs| => fs[i].value)
  }

  function FieldWidths(fs: seq<Field>): seq<nat> {
    seq(|fs|, i requires 0 <= i < |fs| => fs[i].width)
  }

  lemma Parts(first: bytes, others: bytes, rest: bytes)
    ensures (first + others + rest)[..|first|] == first && (first + others + rest)[|first|..] == others + rest
  {
  }

  /** Any mix of widths is read back in the order it was appended, leaving what followed it. */
  lemma {:induction false} IntsReadBack(fs: seq<Field>, rest: bytes)
    requires WellFormed(fs)
    ensures ReadBack(Written(fs) + rest, FieldWidths(fs)) == Some((Values(fs), rest))
  {
    if fs != [] {
      var f := fs[0];
      Parts(EncodeInt(f.value, f.width), Written(fs[1..]), rest);
      DecodeEncodeInt(f.value, f.width);
      IntsReadBack(fs[1..], rest);
      assert FieldWidths(fs)[1..] == FieldWidths(fs[1..]);
      assert Values(fs) == [f.value] + Values(fs[1..]);
    } else {
      assert Written(fs) + rest == rest;
      assert Values(fs) == [];
    }
  }
}
