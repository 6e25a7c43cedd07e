/** The write buffer appends, the read buffer consumes from the front. A read that finds fewer bytes than it asks for
    gets zeros for the missing ones; only a read on an empty buffer reports the end of the input. */
module Buffers {
  import opened Wrappers
  import opened Bytes

  // ---------------------------------------------------------------------------------------------
  // What is written
  // ---------------------------------------------------------------------------------------------

  function Bool(b: bool): Bytestring {
    if b then [1] else [0]
  }

  /** The length, cut to 32 bits, and the bytes. */
  function Sized(s: Bytestring): Bytestring {
    BigEndian(|s| % UINT32, 4) + s
  }

  // ---------------------------------------------------------------------------------------------
  // What is read: the value and the rest of the buffer
  // ---------------------------------------------------------------------------------------------

  function Take(buffer: Bytestring, n: nat): Result<(Bytestring, Bytestring)> {
    if buffer == [] then if n == 0 then Ok(([], [])) else Err
    else if n <= |buffer| then Ok((buffer[..n], buffer[n..]))
    else Ok((buffer + seq(n - |buffer|, _ => 0), []))
  }

  function TakeBool(buffer: Bytestring): Result<(bool, Bytestring)> {
    if buffer == [] then Err else Ok((buffer[0] == 1, buffer[1..]))
  }

  function TakeUint(buffer: Bytestring, k: nat): (r: Result<(nat, Bytestring)>)
    ensures r.Ok? ==> r.value.0 < Limit(k)
  {
    var (d, rest) :- Take(buffer, k);
    Ok((Value(d), rest))
  }

  function TakeSized(buffer: Bytestring): Result<(Bytestring, Bytestring)> {
    var (length, rest) :- TakeUint(buffer, 4);
    Take(rest, length)
  }

  lemma BoolRoundTrip(b: bool, rest: Bytestring)
    ensures TakeBool(Bool(b) + rest) == Ok((b, rest))
  {
    assert (Bool(b) + rest)[1..] == rest;
  }

  lemma TakeFront(s: Bytestring, rest: Bytestring)
    ensures Take(s + rest, |s|) == Ok((s, rest))
  {
    assert (s + rest)[..|s|] == s && (s + rest)[|s|..] == rest;
  }

  lemma UintRoundTrip(n: nat, k: nat, rest: Bytestring)
    requires n < Limit(k)
    ensures TakeUint(BigEndian(n, k) + rest, k) == Ok((n, rest))
  {
    TakeFront(BigEndian(n, k), rest);
    BigEndianRoundTrip(n, k);
  }

  /** A byte string comes back exactly if its length fits into 32 bits. */
  lemma SizedRoundTrip(s: Bytestring, rest: Bytestring)
    ensures TakeSized(Sized(s) + rest) == Ok((s, rest)) <==> |s| < UINT32
  {
    Limits();
    assert Sized(s) + rest == BigEndian(|s| % UINT32, 4) + (s + rest);
    UintRoundTrip(|s| % UINT32, 4, s + rest);
    if |s| < UINT32 {
      TakeFront(s, rest);
    } else {
      var r := Take(s + rest, |s| % UINT32);
      assert r.Ok? ==> |r.value.0| == |s| % UINT32;
    }
  }

  /** A write that returned `r` appended `written`; after an error what is in the buffer no longer matters. */
  ghost predicate Wrote(written: Result<Bytestring>, r: Result<()>, before: Bytestring, after: Bytestring) {
    match r
    case Ok(_) => written.Ok? && after == before + written.value
    case Err => written == Err
    case Panic => written == Panic
  }

  class WriteBuffer {
    var bytes: Bytestring

    constructor ()
      ensures bytes == []
    {
      bytes := [];
    }

    method PutBool(b: bool)
      modifies this
      ensures bytes == old(bytes) + Bool(b)
    {
      var v := 0;
      if b {
        v := 1;
      }
      bytes := bytes + [v];
    }

    method PutInt8(i: Int8)
      modifies this
      ensures bytes == old(bytes) + BigEndian(Unsigned(i, 256), 1)
    {
      assert BigEndian(Unsigned(i, 256), 1) == [Unsigned(i, 256)];
      bytes := bytes + [Unsigned(i, 256)];
    }

    method PutInt16(i: Int16)
      modifies this
      ensures bytes == old(bytes) + BigEndian(Unsigned(i, 0x1_0000), 2)
    {
      bytes := bytes + BigEndian(Unsigned(i, 0x1_0000), 2);
    }

    method PutUint32(n: Uint32)
      modifies this
      ensures bytes == old(bytes) + BigEndian(n, 4)
    {
      bytes := bytes + BigEndian(n, 4);
    }

    method PutInt32(i: Int32)
      modifies this
      ensures bytes == old(bytes) + BigEndian(Unsigned(i, UINT32), 4)
    {
      PutUint32(Unsigned(i, UINT32));
    }

    method PutUint64(n: Uint64)
      modifies this
      ensures bytes == old(bytes) + BigEndian(n, 8)
    {
      bytes := bytes + BigEndian(n, 8);
    }

    method PutInt64(i: Int64)
      modifies this
      ensures bytes == old(bytes) + BigEndian(Unsigned(i, UINT64), 8)
    {
      PutUint64(Unsigned(i, UINT64));
    }

    /** Strings and byte slices alike. */
    method PutBytes(s: Bytestring)
      modifies this
      ensures bytes == old(bytes) + Sized(s)
    {
      PutUint32(|s| % UINT32);
      bytes := bytes + s;
    }
  }

  /** A read that returned `r` and left `after` in the buffer did what `parsed` says. */
  ghost predicate Got<T>(parsed: Result<(T, Bytestring)>, r: Result<T>, after: Bytestring) {
    match r
    case Ok(value) => parsed == Ok((value, after))
    case Err => parsed == Err
    case Panic => parsed == Panic
  }

  class ReadBuffer {
    var bytes: Bytestring

    constructor (data: Bytestring)
      ensures bytes == data
    {
      bytes := data;
    }

    /** The library's Read into a zeroed slice of length `n`. */
    method Read(n: nat) returns (r: Result<Bytestring>)
      modifies this
      ensures Got(Take(old(bytes), n), r, bytes)
    {
      if bytes == [] {
        return if n == 0 then Ok([]) else Err;
      }
      if n <= |bytes| {
        r := Ok(bytes[..n]);
        bytes := bytes[n..];
      } else {
        r := Ok(bytes + seq(n - |bytes|, _ => 0));
        bytes := [];
      }
    }

    method ReadBool() returns (r: Result<bool>)
      modifies this
      ensures Got(TakeBool(old(bytes)), r, bytes)
    {
      if bytes == [] {
        return Err;
      }
      r := Ok(bytes[0] == 1);
      bytes := bytes[1..];
    }

    method ReadUint(k: nat) returns (r: Result<nat>)
      modifies this
      ensures Got(TakeUint(old(bytes), k), r, bytes)
    {
      var d :- Read(k);
      r := Ok(Value(d));
    }

    method ReadBytes() returns (r: Result<Bytestring>)
      modifies this
      ensures Got(TakeSized(old(bytes)), r, bytes)
    {
      var length :- ReadUint(4);
      r := Read(length);
    }
  }
}
