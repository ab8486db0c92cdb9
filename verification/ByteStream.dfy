/** The one-shot resource stream (client/contracts.py, `EphemeralByteStream`). */
module ByteStream {
  import opened Basics

  /** What the iterator yields next: bytes, something else, or an exception. */
  datatype Chunk = Bytes(bytes: seq<bv8>) | NotBytes | Throws

  datatype Outcome = Read(bytes: seq<bv8>) | InvalidSize | ProtocolError | Unavailable

  /** All bytes the iterator delivers before it fails or ends. */
  function Flat(chunks: seq<Chunk>): seq<bv8> {
    if chunks == [] || !chunks[0].Bytes? then [] else chunks[0].bytes + Flat(chunks[1..])
  }

  predicate WellBehaved(chunks: seq<Chunk>) {
    forall i :: 0 <= i < |chunks| ==> chunks[i].Bytes?
  }

  class EphemeralByteStream {
    /** Chunks still to come; none once the iterator is exhausted. */
    var pending: Option<seq<Chunk>>
    var buffer: seq<bv8>
    var closed: bool
    /** How often the close callback has run. */
    var closings: nat

    ghost const content: seq<Chunk>
    /** Bytes handed out so far. */
    ghost var delivered: seq<bv8>

    constructor (chunks: seq<Chunk>)
      ensures Valid() && content == chunks && delivered == [] && !closed
    {
      pending, buffer, closed, closings := Some(chunks), [], false, 0;
      content, delivered := chunks, [];
    }

    function Pending(): seq<Chunk>
      reads this
    {
      if pending.Some? then pending.value else []
    }

    /** While the stream is open nothing is lost; the callback runs once, when it closes. */
    ghost predicate Valid()
      reads this
    {
      && closings == (if closed then 1 else 0)
      && delivered <= Flat(content)
      && (!closed ==> delivered + buffer + Flat(Pending()) == Flat(content))
      && (WellBehaved(content) ==> WellBehaved(Pending()))
    }

    /** Everything was handed out. */
    ghost predicate Drained()
      reads this
    {
      delivered == Flat(content)
    }

    method Close()
      modifies this`closed, this`closings
      ensures closed && closings == if old(closed) then old(closings) else old(closings) + 1
    {
      if !closed {
        closed, closings := true, closings + 1;
      }
    }

    /** `_read_next`: one chunk into the buffer, or the end, or a failure. */
    method ReadNext() returns (failure: Option<Outcome>)
      requires Valid() && !closed && pending.Some?
      modifies this`pending, this`buffer
      ensures failure.None? ==>
        Valid() && !closed && |Pending()| + (if pending.Some? then 1 else 0) < |old(Pending())| + 1
      ensures failure.Some? ==>
        (failure.value == ProtocolError || failure.value == Unavailable) && !WellBehaved(content)
      ensures failure.Some? ==> pending == old(pending) && buffer == old(buffer)
      ensures pending.None? ==> buffer == old(buffer)
    {
      if pending.value == [] {
        pending := None;
        return None;
      }
      var chunk := pending.value[0];
      match chunk
      case Throws => return Some(Unavailable);
      case NotBytes => return Some(ProtocolError);
      case Bytes(bytes) =>
        assert delivered + buffer + Flat(pending.value) == delivered + (buffer + bytes) + Flat(pending.value[1..]);
        buffer := buffer + bytes;
        pending := Some(pending.value[1..]);
        return None;
    }

    /** `read`. For a stream of bytes a read of a positive size is short only once everything is handed out, and
        then the stream is closed. */
    method ReadBytes(size: int) returns (outcome: Outcome)
      requires Valid()
      modifies this
      ensures Valid()
      ensures outcome == InvalidSize <==> !old(closed) && size < -1
      ensures outcome.Read? ==> delivered == old(delivered) + outcome.bytes
      ensures !outcome.Read? ==> delivered == old(delivered)
      ensures outcome.Read? && size >= 0 ==> |outcome.bytes| <= size
      ensures outcome.Read? && size > 0 && |outcome.bytes| < size ==> closed
      ensures outcome.Read? && size == -1 ==> closed
      ensures outcome.Read? && !old(closed) && closed ==> Drained()
      ensures outcome == ProtocolError || outcome == Unavailable ==> closed && !WellBehaved(content)
      ensures old(closed) ==> closed && outcome == Read([])
    {
      if closed || size == 0 {
        return Read([]);
      }
      if size < -1 {
        return InvalidSize;
      }
      while pending.Some? && (size == -1 || |buffer| < size)
        invariant Valid() && !closed && delivered == old(delivered)
        decreases |Pending()| + if pending.Some? then 1 else 0
      {
        var failure := ReadNext();
        if failure.Some? {
          Close();
          return failure.value;
        }
      }
      var taken := if size == -1 || |buffer| < size then buffer else buffer[..size];
      TakenFirst(delivered, buffer, |taken|, Flat(Pending()));
      buffer := buffer[|taken|..];
      delivered := delivered + taken;
      if size == -1 || (pending.None? && buffer == []) {
        Close();
      }
      return Read(taken);
    }

    /** `__iter__`: blocks until an empty one, then closes. For a stream of bytes the blocks are the rest of it. */
    method ReadAll(block: nat) returns (blocks: seq<seq<bv8>>, failed: bool)
      requires Valid() && !closed && block > 0
      modifies this
      ensures Valid() && closed
      ensures old(delivered) + Concatenation(blocks) == delivered
      ensures !failed ==> Drained()
      ensures WellBehaved(content) ==> !failed
      ensures forall i :: 0 <= i < |blocks| ==> 0 < |blocks[i]| <= block
    {
      hide Concatenation, Flat, WellBehaved;
      blocks := [];
      NothingConcatenated();
      while true
        invariant Valid() && old(delivered) + Concatenation(blocks) == delivered
        invariant closed ==> Drained()
        invariant forall i :: 0 <= i < |blocks| ==> 0 < |blocks[i]| <= block
        decreases |Flat(content)| - |delivered|
      {
        var outcome := ReadBytes(block);
        if !outcome.Read? {
          return blocks, true;
        }
        if outcome.bytes == [] {
          Close();
          return blocks, false;
        }
        ConcatenationAdds(blocks, outcome.bytes);
        blocks := blocks + [outcome.bytes];
      }
    }
  }

  function Concatenation(blocks: seq<seq<bv8>>): seq<bv8> {
    if blocks == [] then [] else Concatenation(blocks[..|blocks| - 1]) + blocks[|blocks| - 1]
  }

  /** Moving the first bytes of the buffer to those delivered changes nothing on the whole. */
  lemma TakenFirst(delivered: seq<bv8>, buffer: seq<bv8>, n: nat, rest: seq<bv8>)
    requires n <= |buffer|
    ensures buffer == buffer[..n] + buffer[n..]
    ensures delivered + buffer + rest == (delivered + buffer[..n]) + buffer[n..] + rest
  {
  }

  lemma NothingConcatenated()
    ensures Concatenation([]) == []
  {
  }

  lemma ConcatenationAdds(blocks: seq<seq<bv8>>, block: seq<bv8>)
    ensures Concatenation(blocks + [block]) == Concatenation(blocks) + block
  {
    assert (blocks + [block])[..|blocks|] == blocks;
  }

  /** Chunking does not matter: empty chunks and other cuts of the same bytes read the same. */
  lemma {:induction false} FlatIgnoresCuts(before: seq<Chunk>, left: seq<bv8>, right: seq<bv8>, after: seq<Chunk>)
    ensures Flat(before + [Bytes(left + right)] + after) == Flat(before + [Bytes(left), Bytes(right)] + after)
  {
    var whole, cut := before + [Bytes(left + right)] + after, before + [Bytes(left), Bytes(right)] + after;
    if before == [] {
      assert whole[1..] == after && cut[1..] == [Bytes(right)] + after && cut[1..][1..] == after;
      assert (left + right) + Flat(after) == left + (right + Flat(after));
    } else {
      FlatIgnoresCuts(before[1..], left, right, after);
      assert whole[1..] == before[1..] + [Bytes(left + right)] + after;
      assert cut[1..] == before[1..] + [Bytes(left), Bytes(right)] + after;
    }
  }
}
