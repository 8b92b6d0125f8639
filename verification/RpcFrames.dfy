/** Chunk frames of the runtime's line protocol and the decoder that reassembles them. */
module RpcFrames {
  import opened Prelude

  type byte = bv8

  const NEWLINE: byte := 10
  const MAX_CHUNK_ID_CHARS := 128
  const MAX_COUNT := 256
  const MIN_BYTE_LENGTH := 1_048_576
  const MAX_BYTE_LENGTH := 67_108_864
  const MAX_PAYLOAD_BYTES := 262_144

  /** A chunk; `data` stands for the bytes its canonical base64 text decodes to. */
  datatype ChunkFields = ChunkFields(chunkId: string, index: nat, count: nat, byteLength: nat, data: seq<byte>)

  predicate ValidChunk(c: ChunkFields) {
    && 2 <= c.count <= MAX_COUNT
    && c.index < c.count
    && 0 < |c.chunkId| <= MAX_CHUNK_ID_CHARS
    && MIN_BYTE_LENGTH <= c.byteLength <= MAX_BYTE_LENGTH
    && 0 < |c.data| <= MAX_PAYLOAD_BYTES
  }

  /** Chunks are only built through the checked constructor. */
  type ChunkFrame = c: ChunkFields | ValidChunk(c) witness ChunkFields("c", 0, 2, 1_048_576, [0])

  datatype ChunkFrameError =
    | InvalidCount | IndexOutOfBounds | EmptyChunkId | ChunkIdTooLong | InvalidByteLength
    | EmptyData | InvalidData | PayloadTooLarge

  /** The text form of payloads. */
  datatype Base64 = Base64(encode: seq<byte> -> string, decode: string -> Option<seq<byte>>) {
    predicate EmptyIsEmpty() {
      encode([]) == "" && decode("") == Some([])
    }
  }

  /** The text is the one way of writing these bytes. */
  predicate Canonical(base64: Base64, text: string, bytes: seq<byte>) {
    base64.decode(text) == Some(bytes) && base64.encode(bytes) == text
  }

  /** Construction succeeds exactly for canonical text of a payload within the size rules. */
  function NewChunk(base64: Base64, chunkId: string, index: nat, count: nat, byteLength: nat, text: string)
    : (r: Result<ChunkFrame, ChunkFrameError>)
    requires base64.EmptyIsEmpty()
    ensures r.Ok? ==> Canonical(base64, text, r.value.data)
                      && r.value == ChunkFields(chunkId, index, count, byteLength, r.value.data)
    ensures forall data :: Canonical(base64, text, data) && ValidChunk(ChunkFields(chunkId, index, count, byteLength, data)) ==>
              r == Ok(ChunkFields(chunkId, index, count, byteLength, data))
  {
    if count < 2 || count > MAX_COUNT then Err(InvalidCount)
    else if index >= count then Err(IndexOutOfBounds)
    else if chunkId == "" then Err(EmptyChunkId)
    else if |chunkId| > MAX_CHUNK_ID_CHARS then Err(ChunkIdTooLong)
    else if !(MIN_BYTE_LENGTH <= byteLength <= MAX_BYTE_LENGTH) then Err(InvalidByteLength)
    else if text == "" then Err(EmptyData)
    else
      match base64.decode(text)
      case None => Err(InvalidData)
      case Some(data) =>
        if |data| > MAX_PAYLOAD_BYTES then Err(PayloadTooLarge)
        else if base64.encode(data) != text then Err(InvalidData)
        else Ok(ChunkFields(chunkId, index, count, byteLength, data))
  }

  /** Every other server message is opaque. */
  datatype RpcMessage =
    | Ready(maxFrameBytes: nat, maxReassembledFrameBytes: nat)
    | Chunk(chunk: ChunkFrame)
    | Other(body: seq<byte>)

  /** The JSON text of a message, the parser for it, and the UTF-8 check made on reassembled bytes. */
  datatype Codec = Codec(
    encode: RpcMessage -> seq<byte>, decode: seq<byte> -> Option<RpcMessage>, utf8: seq<byte> -> bool)

  ghost predicate Faithful(codec: Codec) {
    forall m :: RoundTrips(codec, m)
  }

  /** Encoded text has no newline in it and parses back with or without the newline that ends a line. */
  predicate RoundTrips(codec: Codec, m: RpcMessage) {
    && codec.decode(codec.encode(m)) == Some(m)
    && codec.decode(codec.encode(m) + [NEWLINE]) == Some(m)
    && NEWLINE !in codec.encode(m)
    && codec.utf8(codec.encode(m))
  }

  datatype DecodeError =
    | SequenceInterrupted | SequenceMustStartAtZero | SequenceMismatch | SequenceExceedsDeclaredLength
    | SequenceLengthMismatch | DeclaredLengthExceedsLimit | InvalidUtf8 | InvalidJson | NestedChunkFrame

  datatype PendingChunks = PendingChunks(
    chunkId: string, count: nat, byteLength: nat, nextIndex: nat, data: seq<byte>)

  datatype DecoderState = DecoderState(pending: Option<PendingChunks>, limit: nat)

  type PushResult = Result<Option<RpcMessage>, DecodeError>

  // ----- what a push does -----

  /** The sequence a chunk continues: the pending one, or a new one if it is the first of its own. */
  function Continued(pending: Option<PendingChunks>, chunk: ChunkFrame): Result<PendingChunks, DecodeError> {
    match pending
    case None =>
      if chunk.index != 0 then Err(SequenceMustStartAtZero)
      else Ok(PendingChunks(chunk.chunkId, chunk.count, chunk.byteLength, 0, []))
    case Some(p) =>
      if p.chunkId != chunk.chunkId || p.count != chunk.count || p.byteLength != chunk.byteLength
         || p.nextIndex != chunk.index
      then Err(SequenceMismatch) else Ok(p)
  }

  /** The message a finished byte string stands for. */
  function Finish(codec: Codec, bytes: seq<byte>): PushResult {
    if !codec.utf8(bytes) then Err(InvalidUtf8)
    else
      match codec.decode(bytes)
      case None => Err(InvalidJson)
      case Some(Chunk(_)) => Err(NestedChunkFrame)
      case Some(message) => Ok(Some(message))
  }

  /** State and result of one push. The state after an error is left as far as the push got. */
  function Pushed(codec: Codec, d: DecoderState, message: RpcMessage): (DecoderState, PushResult) {
    if !message.Chunk? then
      if d.pending.Some? then (d, Err(SequenceInterrupted))
      else (if message.Ready? then d.(limit := message.maxReassembledFrameBytes) else d, Ok(Some(message)))
    else
      var chunk := message.chunk;
      if chunk.byteLength > d.limit then (d, Err(DeclaredLengthExceedsLimit))
      else
        var continued := Continued(d.pending, chunk);
        if continued.Err? then (d, Err(continued.error))
        else
          var grown := continued.value.(
            data := continued.value.data + chunk.data, nextIndex := continued.value.nextIndex + 1);
          if |grown.data| > grown.byteLength then (d.(pending := Some(grown)), Err(SequenceExceedsDeclaredLength))
          else if grown.nextIndex < grown.count then (d.(pending := Some(grown)), Ok(None))
          else if |grown.data| != grown.byteLength then (d.(pending := Some(grown)), Err(SequenceLengthMismatch))
          else (d.(pending := None), Finish(codec, grown.data))
  }

  class RpcFrameDecoder {
    var pending: Option<PendingChunks>
    var maxReassembledFrameBytes: nat

    ghost function View(): DecoderState
      reads this
    {
      DecoderState(pending, maxReassembledFrameBytes)
    }

    constructor (maxReassembledFrameBytes: nat)
      ensures View() == DecoderState(None, maxReassembledFrameBytes)
    {
      pending, this.maxReassembledFrameBytes := None, maxReassembledFrameBytes;
    }

    predicate IsReassembling()
      reads this
    {
      pending.Some?
    }

    method Push(codec: Codec, message: RpcMessage) returns (result: PushResult)
      modifies this
      ensures (View(), result) == Pushed(codec, old(View()), message)
    {
      if !message.Chunk? {
        if pending.Some? {
          return Err(SequenceInterrupted);
        }
        if message.Ready? {
          maxReassembledFrameBytes := message.maxReassembledFrameBytes;
        }
        return Ok(Some(message));
      }
      var chunk := message.chunk;
      if chunk.byteLength > maxReassembledFrameBytes {
        return Err(DeclaredLengthExceedsLimit);
      }
      if pending.None? {
        if chunk.index != 0 {
          return Err(SequenceMustStartAtZero);
        }
        pending := Some(PendingChunks(chunk.chunkId, chunk.count, chunk.byteLength, 0, []));
      }
      var p := pending.value;
      if p.chunkId != chunk.chunkId || p.count != chunk.count || p.byteLength != chunk.byteLength
         || p.nextIndex != chunk.index {
        return Err(SequenceMismatch);
      }
      p := p.(data := p.data + chunk.data);
      p := p.(nextIndex := p.nextIndex + 1);
      pending := Some(p);
      if |p.data| > p.byteLength {
        return Err(SequenceExceedsDeclaredLength);
      }
      if p.nextIndex < p.count {
        return Ok(None);
      }
      if |p.data| != p.byteLength {
        return Err(SequenceLengthMismatch);
      }
      pending := None;
      if !codec.utf8(p.data) {
        return Err(InvalidUtf8);
      }
      match codec.decode(p.data) {
        case None => return Err(InvalidJson);
        case Some(decoded) =>
          if decoded.Chunk? {
            return Err(NestedChunkFrame);
          }
          return Ok(Some(decoded));
      }
    }
  }

  // ----- what is buffered, over any push sequence without an error -----

  function Join(parts: seq<ChunkFrame>): seq<byte> {
    if parts == [] then [] else Join(parts[..|parts| - 1]) + parts[|parts| - 1].data
  }

  /** `parts` are the first chunks of one sequence: same identity, indices counting up from zero. */
  predicate InOrder(parts: seq<ChunkFrame>) {
    forall i :: 0 <= i < |parts| ==> IsPart(parts[0], parts[i], i)
  }

  predicate IsPart(first: ChunkFrame, c: ChunkFrame, i: nat) {
    c.index == i && c.chunkId == first.chunkId && c.count == first.count && c.byteLength == first.byteLength
  }

  /** The decoder holds exactly the payloads of `parts`, within the declared length and the limit in force. */
  predicate Buffers(d: DecoderState, parts: seq<ChunkFrame>) {
    && InOrder(parts)
    && (d.pending.None? <==> parts == [])
    && (d.pending.Some? ==>
          var p := d.pending.value;
          && p == PendingChunks(parts[0].chunkId, parts[0].count, parts[0].byteLength, |parts|, Join(parts))
          && |p.data| <= p.byteLength <= d.limit
          && |parts| < p.count)
  }

  /** The chunks still open after a push that did not fail. */
  function OpenParts(parts: seq<ChunkFrame>, message: RpcMessage, result: PushResult): seq<ChunkFrame> {
    if message.Chunk? && result == Ok(None) then parts + [message.chunk] else []
  }

  /**
   * A push that does not fail keeps the buffer exact and bounded; and a message comes out of a chunk
   * only as the decoding of exactly `count` in-order payloads totalling the declared length.
   */
  lemma PushKeepsBuffer(codec: Codec, d: DecoderState, message: RpcMessage, parts: seq<ChunkFrame>)
    requires Buffers(d, parts) && Pushed(codec, d, message).1.Ok?
    ensures var (after, result) := Pushed(codec, d, message);
            && Buffers(after, OpenParts(parts, message, result))
            && (message.Chunk? && result.value.Some? ==>
                  var all := parts + [message.chunk];
                  && InOrder(all) && |all| == message.chunk.count
                  && |Join(all)| == message.chunk.byteLength <= d.limit
                  && codec.decode(Join(all)) == result.value)
  {
    if message.Chunk? {
      var all := parts + [message.chunk];
      assert all[..|all| - 1] == parts;
      forall i | 0 <= i < |all| ensures IsPart(all[0], all[i], i) {
        assert i < |parts| ==> IsPart(parts[0], parts[i], i);
      }
    }
  }

  /** All results up to the first error, and the final state. */
  function PushAll(codec: Codec, d: DecoderState, messages: seq<RpcMessage>)
    : (DecoderState, seq<RpcMessage>, Option<DecodeError>)
    decreases |messages|
  {
    if messages == [] then (d, [], None)
    else
      var (next, result) := Pushed(codec, d, messages[0]);
      match result
      case Err(error) => (next, [], Some(error))
      case Ok(out) =>
        var (final, rest, error) := PushAll(codec, next, messages[1..]);
        (final, (if out.Some? then [out.value] else []) + rest, error)
  }

  function PartsAfter(codec: Codec, d: DecoderState, messages: seq<RpcMessage>, parts: seq<ChunkFrame>): seq<ChunkFrame>
    decreases |messages|
  {
    if messages == [] then parts
    else
      var (next, result) := Pushed(codec, d, messages[0]);
      PartsAfter(codec, next, messages[1..], OpenParts(parts, messages[0], result))
  }

  /** Up to the first error, whatever is pushed, the buffer is exactly the open chunks and stays within bounds. */
  lemma {:induction false} BufferAlwaysExact(
    codec: Codec, d: DecoderState, messages: seq<RpcMessage>, parts: seq<ChunkFrame>)
    requires Buffers(d, parts) && PushAll(codec, d, messages).2.None?
    ensures Buffers(PushAll(codec, d, messages).0, PartsAfter(codec, d, messages, parts))
    decreases |messages|
  {
    if messages != [] {
      hide Pushed, Buffers;
      var (next, result) := Pushed(codec, d, messages[0]);
      PushKeepsBuffer(codec, d, messages[0], parts);
      BufferAlwaysExact(codec, next, messages[1..], OpenParts(parts, messages[0], result));
    }
  }

  /** The first rule that the next chunk of a sequence breaks; `all` is the sequence with it. */
  function Broken(codec: Codec, limit: nat, all: seq<ChunkFrame>): Option<DecodeError>
    requires all != []
  {
    var last := all[|all| - 1];
    if last.byteLength > limit then Some(DeclaredLengthExceedsLimit)
    else if !InOrder(all) then Some(if |all| == 1 then SequenceMustStartAtZero else SequenceMismatch)
    else if |Join(all)| > last.byteLength then Some(SequenceExceedsDeclaredLength)
    else if |all| < last.count then None
    else if |Join(all)| != last.byteLength then Some(SequenceLengthMismatch)
    else if !codec.utf8(Join(all)) then Some(InvalidUtf8)
    else if codec.decode(Join(all)).None? then Some(InvalidJson)
    else if codec.decode(Join(all)).value.Chunk? then Some(NestedChunkFrame)
    else None
  }

  /**
   * What every push answers, in every state that holds the chunks `parts` of an unfinished sequence. A
   * message that is not a chunk passes through if and only if no sequence is open, and inside one it
   * is always an error. A chunk is taken silently if and only if it leaves the sequence in order, open
   * and within its declared length and the limit; a message comes out if and only if it completes the
   * sequence to the declared length and the joined payloads are the text of that message. Otherwise
   * the answer is the first rule broken.
   */
  lemma PushAnswersExactly(codec: Codec, d: DecoderState, message: RpcMessage, parts: seq<ChunkFrame>)
    requires Buffers(d, parts)
    ensures var (after, result) := Pushed(codec, d, message);
            if !message.Chunk? then
              && (result == Ok(Some(message)) <==> parts == [])
              && (result == Err(SequenceInterrupted) <==> parts != [])
              && after == (if message.Ready? && parts == [] then DecoderState(None, message.maxReassembledFrameBytes) else d)
            else
              var all := parts + [message.chunk];
              && (result.Err? <==> Broken(codec, d.limit, all).Some?)
              && (result.Err? ==> result.error == Broken(codec, d.limit, all).value)
              && (result == Ok(None) <==> Broken(codec, d.limit, all).None? && |all| < message.chunk.count)
              && (result.Ok? && result.value.Some? ==>
                    |all| == message.chunk.count && result.value == codec.decode(Join(all)))
              && after.limit == d.limit
  {
    if message.Chunk? {
      var all := parts + [message.chunk];
      assert all[|all| - 1] == message.chunk && all[..|all| - 1] == parts;
      NextInOrder(parts, message.chunk);
      assert Join(all) == Join(parts) + message.chunk.data;
      hide InOrder;
    }
  }

  lemma NextInOrder(parts: seq<ChunkFrame>, chunk: ChunkFrame)
    requires InOrder(parts)
    ensures InOrder(parts + [chunk]) <==>
              chunk.index == |parts| && (parts != [] ==> IsPart(parts[0], chunk, |parts|))
  {
    var all := parts + [chunk];
    if chunk.index == |parts| && (parts != [] ==> IsPart(parts[0], chunk, |parts|)) {
      forall i | 0 <= i < |all| ensures IsPart(all[0], all[i], i) {
        assert i < |parts| ==> IsPart(parts[0], parts[i], i);
      }
    }
    if InOrder(all) {
      assert IsPart(all[0], all[|parts|], |parts|);
    }
  }

  /** The limit in force is the one the last "ready" message announced. */
  function Announced(limit: nat, messages: seq<RpcMessage>): nat {
    if messages == [] then limit
    else if messages[|messages| - 1].Ready? then messages[|messages| - 1].maxReassembledFrameBytes
    else Announced(limit, messages[..|messages| - 1])
  }

  lemma {:induction false} AnnouncedFirst(limit: nat, messages: seq<RpcMessage>)
    requires messages != []
    ensures Announced(limit, messages)
            == Announced(if messages[0].Ready? then messages[0].maxReassembledFrameBytes else limit, messages[1..])
  {
    if |messages| > 1 {
      assert messages[1..][..|messages| - 2] == messages[..|messages| - 1][1..];
      AnnouncedFirst(limit, messages[..|messages| - 1]);
    } else {
      assert messages[..0] == [];
    }
  }

  lemma {:induction false} LimitIsAsAnnounced(codec: Codec, d: DecoderState, messages: seq<RpcMessage>)
    requires PushAll(codec, d, messages).2.None?
    ensures PushAll(codec, d, messages).0.limit == Announced(d.limit, messages)
    decreases |messages|
  {
    if messages != [] {
      AnnouncedFirst(d.limit, messages);
      LimitIsAsAnnounced(codec, Pushed(codec, d, messages[0]).0, messages[1..]);
    }
  }

  // ----- splitting and reassembly -----

  function PieceCount(length: nat): nat {
    (length + MAX_PAYLOAD_BYTES - 1) / MAX_PAYLOAD_BYTES
  }

  function Piece(bytes: seq<byte>, i: nat): seq<byte>
    requires i < PieceCount(|bytes|)
  {
    var end := (i + 1) * MAX_PAYLOAD_BYTES;
    bytes[i * MAX_PAYLOAD_BYTES..if end < |bytes| then end else |bytes|]
  }

  predicate Splittable(bytes: seq<byte>, chunkId: string) {
    MIN_BYTE_LENGTH <= |bytes| <= MAX_BYTE_LENGTH && 0 < |chunkId| <= MAX_CHUNK_ID_CHARS
  }

  /** Every length from 1 MiB to 64 MiB splits into 4 to 256 pieces within the size rules. */
  lemma PiecesAreValidChunks(bytes: seq<byte>, chunkId: string, i: nat)
    requires Splittable(bytes, chunkId) && i < PieceCount(|bytes|)
    ensures 4 <= PieceCount(|bytes|) <= MAX_COUNT
    ensures ValidChunk(ChunkFields(chunkId, i, PieceCount(|bytes|), |bytes|, Piece(bytes, i)))
  {
  }

  /** The constructor accepts the text of each piece and keeps the piece. */
  lemma PiecesAreAccepted(base64: Base64, bytes: seq<byte>, chunkId: string, i: nat)
    requires Splittable(bytes, chunkId) && i < PieceCount(|bytes|)
    requires base64.EmptyIsEmpty() && base64.decode(base64.encode(Piece(bytes, i))) == Some(Piece(bytes, i))
    ensures NewChunk(base64, chunkId, i, PieceCount(|bytes|), |bytes|, base64.encode(Piece(bytes, i)))
            == Ok(ChunkFields(chunkId, i, PieceCount(|bytes|), |bytes|, Piece(bytes, i)))
  {
    PiecesAreValidChunks(bytes, chunkId, i);
    hide PieceCount, Piece;
    assert Canonical(base64, base64.encode(Piece(bytes, i)), Piece(bytes, i));
  }

  function Split(bytes: seq<byte>, chunkId: string): (chunks: seq<ChunkFrame>)
    requires Splittable(bytes, chunkId)
    ensures |chunks| == PieceCount(|bytes|)
  {
    seq(PieceCount(|bytes|), i requires 0 <= i < PieceCount(|bytes|) =>
      PiecesAreValidChunks(bytes, chunkId, i);
      var chunk: ChunkFrame := ChunkFields(chunkId, i, PieceCount(|bytes|), |bytes|, Piece(bytes, i));
      chunk)
  }

  /** How many bytes the first k pieces cover. */
  function Covered(length: nat, k: nat): (n: nat)
    ensures n <= length
  {
    if k * MAX_PAYLOAD_BYTES < length then k * MAX_PAYLOAD_BYTES else length
  }

  lemma PieceExtends(bytes: seq<byte>, k: nat)
    requires 0 < k <= PieceCount(|bytes|)
    ensures bytes[..Covered(|bytes|, k - 1)] + Piece(bytes, k - 1) == bytes[..Covered(|bytes|, k)]
  {
  }

  /** The first k pieces joined are the first k pieces' worth of bytes. */
  lemma {:induction false} JoinOfSplit(bytes: seq<byte>, chunkId: string, k: nat)
    requires Splittable(bytes, chunkId) && k <= PieceCount(|bytes|)
    ensures Join(Split(bytes, chunkId)[..k]) == bytes[..Covered(|bytes|, k)]
  {
    var chunks := Split(bytes, chunkId);
    if k > 0 {
      assert chunks[k - 1].data == Piece(bytes, k - 1);
      hide Split, Piece, PieceCount, Covered;
      JoinOfSplit(bytes, chunkId, k - 1);
      PieceExtends(bytes, k);
      assert chunks[..k][..k - 1] == chunks[..k - 1];
    }
  }

  function ChunkMessages(chunks: seq<ChunkFrame>): seq<RpcMessage> {
    seq(|chunks|, i requires 0 <= i < |chunks| => Chunk(chunks[i]))
  }

  /** The decoder after the first k chunks of a split message. */
  function Midway(bytes: seq<byte>, chunkId: string, limit: nat, k: nat): DecoderState
    requires Splittable(bytes, chunkId) && k <= PieceCount(|bytes|)
  {
    if k == 0 then DecoderState(None, limit)
    else DecoderState(
      Some(PendingChunks(chunkId, PieceCount(|bytes|), |bytes|, k, Join(Split(bytes, chunkId)[..k]))), limit)
  }

  lemma AllCovered(length: nat)
    ensures Covered(length, PieceCount(length)) == length
  {
  }

  lemma SplitChunk(bytes: seq<byte>, chunkId: string, k: nat)
    requires Splittable(bytes, chunkId) && k < PieceCount(|bytes|)
    ensures var chunk := Split(bytes, chunkId)[k];
            && chunk.chunkId == chunkId && chunk.index == k && chunk.count == PieceCount(|bytes|)
            && chunk.byteLength == |bytes|
  {
  }

  lemma SplitStep(codec: Codec, bytes: seq<byte>, chunkId: string, limit: nat, k: nat)
    requires Splittable(bytes, chunkId) && |bytes| <= limit && k < PieceCount(|bytes|)
    ensures var (next, result) := Pushed(codec, Midway(bytes, chunkId, limit, k), Chunk(Split(bytes, chunkId)[k]));
            if k + 1 < PieceCount(|bytes|) then next == Midway(bytes, chunkId, limit, k + 1) && result == Ok(None)
            else next == DecoderState(None, limit) && result == Finish(codec, bytes)
  {
    SplitChunk(bytes, chunkId, k);
    JoinNext(bytes, chunkId, k);
    hide Split, Piece, PieceCount, Join, Covered, Finish, Splittable;
  }

  /** One more piece: the payloads joined so far stay within the bytes, and are all of them after the last. */
  lemma JoinNext(bytes: seq<byte>, chunkId: string, k: nat)
    requires Splittable(bytes, chunkId) && k < PieceCount(|bytes|)
    ensures var chunks := Split(bytes, chunkId);
            && Join(chunks[..0]) == []
            && Join(chunks[..k]) + chunks[k].data == Join(chunks[..k + 1])
            && |Join(chunks[..k + 1])| <= |bytes|
            && (k + 1 == PieceCount(|bytes|) ==> Join(chunks[..k + 1]) == bytes)
  {
    hide Split, Piece, PieceCount, Covered;
    var chunks := Split(bytes, chunkId);
    JoinOfSplit(bytes, chunkId, k + 1);
    AllCovered(|bytes|);
    assert chunks[..0] == [];
    assert chunks[..k + 1][..k] == chunks[..k];
    assert bytes[..|bytes|] == bytes;
  }

  /** Splitting an encoded message and pushing its chunks is the identity. */
  lemma {:induction false} SplitThenReassemble(
    codec: Codec, message: RpcMessage, chunkId: string, limit: nat, k: nat)
    requires RoundTrips(codec, message) && !message.Chunk?
    requires var bytes := codec.encode(message);
             Splittable(bytes, chunkId) && |bytes| <= limit && k < PieceCount(|bytes|)
    ensures var bytes := codec.encode(message);
            PushAll(codec, Midway(bytes, chunkId, limit, k), ChunkMessages(Split(bytes, chunkId)[k..]))
            == (DecoderState(None, limit), [message], None)
    decreases PieceCount(|codec.encode(message)|) - k
  {
    hide Pushed, Midway, Split, PieceCount;
    var bytes := codec.encode(message);
    var chunks := Split(bytes, chunkId);
    SplitStep(codec, bytes, chunkId, limit, k);
    var messages := ChunkMessages(chunks[k..]);
    assert messages[0] == Chunk(chunks[k]);
    assert messages[1..] == ChunkMessages(chunks[k + 1..]);
    if k + 1 < |chunks| {
      SplitThenReassemble(codec, message, chunkId, limit, k + 1);
      assert [] + [message] == [message];
    } else {
      assert messages[1..] == [];
      assert PushAll(codec, DecoderState(None, limit), []) == (DecoderState(None, limit), [], None);
      assert [message] + [] == [message];
    }
  }
}
