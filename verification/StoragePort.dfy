/** The asynchronous storage contract of storage_port.h: what an accepted operation may do to the media. */
module StoragePort {
  import opened Bits

  type Media = seq<uint8>

  datatype Token = Token(operationId: uint32, correlationId: uint32, ownerGeneration: uint32)

  datatype IoResult = IoOk | IoTimeout | IoBusError | IoCancelled | IoStale | IoShortTransfer | IoInternalError

  datatype IoCompletion = IoCompletion(
    token: Token, result: IoResult, requestedLength: nat, transferredLength: nat)

  datatype Request = Read(offset: nat, size: nat) | Write(offset: nat, data: seq<uint8>)
  {
    function Length(): nat {
      if Read? then size else |data|
    }
  }

  /** The media after all of data has been written. */
  function Spliced(media: Media, offset: nat, data: seq<uint8>): (r: Media)
    requires offset + |data| <= |media|
    ensures |r| == |media|
  {
    media[..offset] + data + media[offset + |data|..]
  }

  /** A window of the media that holds the whole range, and one that it misses. */
  lemma SplicedWindow(media: Media, base: nat, width: nat, from: nat, data: seq<uint8>)
    requires base + width <= |media| && from + |data| <= width
    ensures Spliced(media, base + from, data)[base..base + width] == Spliced(media[base..base + width], from, data)
  {
    var whole, part := Spliced(media, base + from, data), Spliced(media[base..base + width], from, data);
    forall k | 0 <= k < width
      ensures whole[base..base + width][k] == part[k]
    {
      assert whole[base + k] == whole[base..base + width][k];
    }
    assert whole[base..base + width] == part;
  }

  lemma SplicedElsewhere(media: Media, offset: nat, data: seq<uint8>, from: nat, to: nat)
    requires offset + |data| <= |media| && from <= to <= |media| && (to <= offset || offset + |data| <= from)
    ensures Spliced(media, offset, data)[from..to] == media[from..to]
  {
    forall k | from <= k < to
      ensures Spliced(media, offset, data)[k] == media[k]
    {
    }
    assert Spliced(media, offset, data)[from..to] == media[from..to];
  }

  /** Bytes are atomic: each byte of the range is old or new, and no other byte changes. */
  ghost predicate MaybeWritten(before: Media, after: Media, offset: nat, data: seq<uint8>) {
    && |after| == |before| && offset + |data| <= |before|
    && forall i :: 0 <= i < |before| ==>
         after[i] == before[i] || (offset <= i < offset + |data| && after[i] == data[i - offset])
  }

  predicate IsComplete(c: IoCompletion) {
    c.result == IoOk && c.transferredLength == c.requestedLength
  }

  /** What may be observed when the terminal completion c of request r arrives: the media afterwards, and for a
      read the bytes now in the caller's buffer. Only a complete transfer promises anything about them. */
  ghost predicate Effect(r: Request, c: IoCompletion, before: Media, after: Media, received: seq<uint8>) {
    match r
    case Read(offset, size) =>
      && offset + size <= |before| && after == before && |received| == size
      && (IsComplete(c) ==> received == before[offset..offset + size])
    case Write(offset, data) =>
      && MaybeWritten(before, after, offset, data)
      && (IsComplete(c) ==> after == Spliced(before, offset, data))
  }
}
