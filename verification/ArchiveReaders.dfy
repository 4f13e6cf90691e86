/** Reading decompressed data in chunks without ever accepting more than a limit. */
module ArchiveReaders {

  import opened Archives

  datatype Chunk = Exceeded | Failed | Chunk(bytes: Bytes)

  /** The decompressor under a reader: at most n bytes at a time, and its failure once nothing is left. */
  method ReadRaw(raw: Stream, at: nat, n: nat) returns (c: Chunk)
    requires at <= |raw.bytes| && n > 0
    ensures !c.Exceeded?
    ensures c.Failed? <==> at == |raw.bytes| && raw.broken
    ensures c.Chunk? ==> |c.bytes| <= n && at + |c.bytes| <= |raw.bytes| && c.bytes == raw.bytes[at..at + |c.bytes|]
    ensures c.Chunk? && c.bytes == [] ==> at == |raw.bytes| && !raw.broken
  {
    if at == |raw.bytes| && raw.broken { return Failed; }
    var left := |raw.bytes| - at;
    return Chunk(raw.bytes[at..at + if left < n then left else n]);
  }

  class LimitedReader {
    const raw: Stream
    const limit: int
    var consumed: nat

    predicate Valid()
      reads this
    {
      consumed <= |raw.bytes|
    }

    constructor (raw: Stream, limit: int)
      ensures Valid() && consumed == 0 && this.raw == raw && this.limit == limit
    {
      this.raw, this.limit, consumed := raw, limit, 0;
    }

    /**
     Nothing beyond the limit is ever returned, and the reader only gives up when the stream holds more than
     the limit.
     */
    method Read(size: int) returns (c: Chunk)
      requires Valid() && size != 0
      modifies this`consumed
      ensures Valid()
      ensures c.Exceeded? ==> |raw.bytes| > limit
      ensures c.Failed? ==> consumed == old(consumed) == |raw.bytes| && consumed <= limit && raw.broken
      ensures c.Chunk? ==> consumed == old(consumed) + |c.bytes| <= limit && c.bytes == raw.bytes[old(consumed)..consumed]
      ensures c.Chunk? && c.bytes == [] ==> consumed == |raw.bytes| && !raw.broken
    {
      var remaining := limit - consumed;
      if remaining < 0 { return Exceeded; }
      var requested := if size < 0 || remaining + 1 < size then remaining + 1 else size;
      c := ReadRaw(raw, consumed, requested);
      if c.Chunk? {
        consumed := consumed + |c.bytes|;
        if consumed > limit { return Exceeded; }
      }
    }
  }

  /** Reading through a limited reader to the end. */
  method ReadAll(raw: Stream, limit: int) returns (d: Drained)
    ensures d == Drain(raw, limit)
  {
    var reader := new LimitedReader(raw, limit);
    var chunks: Bytes := [];
    while true
      invariant reader.Valid() && reader.raw == raw && reader.limit == limit && fresh(reader)
      invariant chunks == raw.bytes[..reader.consumed] && (reader.consumed <= limit || reader.consumed == 0 > limit)
      decreases |raw.bytes| - reader.consumed
    {
      var c := reader.Read(MIB);
      match c {
        case Exceeded => return Over;
        case Failed => return Broke;
        case Chunk(bytes) =>
          if bytes == [] { return All(chunks); }
          chunks := chunks + bytes;
      }
    }
  }

  /** The loop that extracts one ZIP member. */
  method ExtractZip(packed: Stream, limit: nat) returns (d: Drained)
    ensures d == Drain(packed, limit)
  {
    var chunks: Bytes := [];
    while true
      invariant |chunks| <= limit && |chunks| <= |packed.bytes| && chunks == packed.bytes[..|chunks|]
      decreases |packed.bytes| - |chunks|
    {
      var c := ReadRaw(packed, |chunks|, if limit + 1 - |chunks| < MIB then limit + 1 - |chunks| else MIB);
      match c {
        case Failed => return Broke;
        case Chunk(bytes) =>
          if bytes == [] { return All(chunks); }
          chunks := chunks + bytes;
          if |chunks| > limit { return Over; }
      }
    }
  }
}
