/** Measuring serialized JSON without keeping it.

A serializer writes a value as a sequence of chunks and stops at the first write error. */
module BoundedJson {
  import opened Common

  type Chunks = seq<seq<Byte>>

  const USIZE_MAX: nat := 0xFFFF_FFFF_FFFF_FFFF

  function TotalLength(chunks: Chunks): nat {
    if chunks == [] then 0 else |chunks[0]| + TotalLength(chunks[1..])
  }

  lemma {:induction false} TotalLengthAppend(a: Chunks, b: Chunks)
    ensures TotalLength(a + b) == TotalLength(a) + TotalLength(b)
  {
    if a == [] {
      assert a + b == b;
    } else {
      TotalLengthAppend(a[1..], b);
      assert (a + b)[1..] == a[1..] + b;
    }
  }

  lemma PrefixLength(chunks: Chunks, n: nat)
    requires n < |chunks|
    ensures TotalLength(chunks[..n + 1]) == TotalLength(chunks[..n]) + |chunks[n]|
    ensures TotalLength(chunks) >= TotalLength(chunks[..n + 1])
  {
    assert chunks[..n + 1] == chunks[..n] + [chunks[n]];
    TotalLengthAppend(chunks[..n], [chunks[n]]);
    assert TotalLength([chunks[n]]) == |chunks[n]| + TotalLength([]);
    assert chunks == chunks[..n + 1] + chunks[n + 1..];
    TotalLengthAppend(chunks[..n + 1], chunks[n + 1..]);
  }

  class CountingWriter {
    const limit: nat
    var written: nat

    constructor (limit: nat)
      ensures this.limit == limit && written == 0
    {
      this.limit, written := limit, 0;
    }

    /** Accepts the whole chunk or nothing. */
    method Write(bytes: seq<Byte>) returns (ok: bool)
      requires written <= limit
      modifies this`written
      ensures written <= limit
      ensures ok <==> old(written) + |bytes| <= limit
      ensures written == if ok then old(written) + |bytes| else old(written)
    {
      var room := limit - written;
      if |bytes| > room {
        return false;
      }
      written := written + |bytes|;
      return true;
    }
  }

  /** What was written are the whole chunks before the first that does not fit. */
  ghost predicate StoppedAt(chunks: Chunks, written: nat, limit: nat) {
    exists k :: 0 <= k < |chunks| && TotalLength(chunks[..k]) == written && written + |chunks[k]| > limit
  }

  /** `to_writer`: succeeds exactly when everything fits, whatever the chunking. */
  method Serialize(writer: CountingWriter, chunks: Chunks) returns (ok: bool)
    requires writer.written == 0
    modifies writer
    ensures writer.written <= writer.limit
    ensures ok <==> TotalLength(chunks) <= writer.limit
    ensures ok ==> writer.written == TotalLength(chunks)
    ensures !ok ==> StoppedAt(chunks, writer.written, writer.limit)
  {
    for i := 0 to |chunks|
      invariant writer.written == TotalLength(chunks[..i]) <= writer.limit
    {
      PrefixLength(chunks, i);
      var accepted := writer.Write(chunks[i]);
      if !accepted {
        return false;
      }
    }
    assert chunks[..|chunks|] == chunks;
    return true;
  }

  method SerializedSize(chunks: Chunks) returns (size: nat)
    ensures size <= USIZE_MAX
    ensures TotalLength(chunks) <= USIZE_MAX ==> size == TotalLength(chunks)
    ensures TotalLength(chunks) > USIZE_MAX ==> StoppedAt(chunks, size, USIZE_MAX)
  {
    var writer := new CountingWriter(USIZE_MAX);
    var ok := Serialize(writer, chunks);
    size := writer.written;
  }

  method SerializedFits(chunks: Chunks, limit: nat) returns (fits: bool)
    requires limit <= USIZE_MAX
    ensures fits <==> TotalLength(chunks) <= limit
  {
    var writer := new CountingWriter(limit);
    fits := Serialize(writer, chunks);
  }

  lemma {:induction false} FlattenLength(chunks: Chunks)
    ensures |Flatten(chunks)| == TotalLength(chunks)
  {
    if chunks != [] {
      FlattenLength(chunks[1..]);
    }
  }

  /** The same bytes, cut into chunks in two ways: for a value of representable size, testing one against
  a limit agrees with measuring the other. A larger value never fits. */
  method FitsAgreesWithSize(a: Chunks, b: Chunks, limit: nat) returns (fits: bool, size: nat)
    requires Flatten(a) == Flatten(b) && limit <= USIZE_MAX
    ensures |Flatten(a)| <= USIZE_MAX ==> (fits <==> size <= limit) && size == |Flatten(a)|
    ensures |Flatten(a)| > USIZE_MAX ==> !fits
  {
    fits := SerializedFits(a, limit);
    size := SerializedSize(b);
    FlattenLength(a);
    FlattenLength(b);
  }
}
