/** From arbitrary reads of a child's stdout to the messages it wrote: limited lines feeding the chunk decoder. */
module StdoutPipeline {
  import opened Prelude
  import opened RpcFrames

  /** One read of the pipe: some bytes, or an I/O failure. End of stream is the end of the list. */
  datatype ReadEvent = Data(bytes: seq<byte>) | Failure {
    /** A read of no bytes would be the end of the stream. */
    predicate NonEmpty() {
      Data? ==> bytes != []
    }
  }

  datatype LineReadError = Io | TooLarge(limit: nat) | UnexpectedEof

  datatype ReaderItem =
    | Frame(message: RpcMessage)
    | DecodeFailed(error: DecodeError)
    | LineFailed(lineError: LineReadError)
    | EndedMidSequence
    | Eof

  type LineResult = Result<Option<seq<byte>>, LineReadError>

  function Flatten(arrivals: seq<ReadEvent>): seq<byte> {
    if arrivals == [] || arrivals[0].Failure? then [] else arrivals[0].bytes + Flatten(arrivals[1..])
  }

  predicate EndsInFailure(arrivals: seq<ReadEvent>) {
    arrivals != [] && (arrivals[0].Failure? || EndsInFailure(arrivals[1..]))
  }

  /** A buffered reader: bytes already read, and the reads still to come. */
  class BufferedReader {
    var buffer: seq<byte>
    var arrivals: seq<ReadEvent>

    ghost predicate Valid()
      reads this
    {
      forall i :: 0 <= i < |arrivals| ==> arrivals[i].NonEmpty()
    }

    ghost function Stream(): seq<byte>
      reads this
    {
      buffer + Flatten(arrivals)
    }

    ghost function Failing(): bool
      reads this
    {
      EndsInFailure(arrivals)
    }

    constructor (arrivals: seq<ReadEvent>)
      requires forall i :: 0 <= i < |arrivals| ==> arrivals[i].NonEmpty()
      ensures Valid() && Stream() == Flatten(arrivals) && Failing() == EndsInFailure(arrivals)
    {
      buffer, this.arrivals := [], arrivals;
    }

    /** The buffered bytes, after one read if there were none; empty only at the end of the stream. */
    method FillBuf() returns (available: Option<seq<byte>>)
      requires Valid()
      modifies this
      ensures Valid() && Stream() == old(Stream()) && Failing() == old(Failing())
      ensures available.None? ==> Stream() == [] && Failing()
      ensures available.Some? ==> available.value == buffer
      ensures available == Some([]) ==> Stream() == [] && !Failing()
    {
      if buffer == [] && arrivals != [] {
        match arrivals[0] {
          case Failure => return None;
          case Data(bytes) =>
            buffer := bytes;
            arrivals := arrivals[1..];
        }
      }
      return Some(buffer);
    }

    method Consume(n: nat)
      requires Valid() && n <= |buffer|
      modifies this`buffer
      ensures Valid() && Stream() == old(Stream())[n..] && Failing() == old(Failing())
      ensures buffer == old(buffer)[n..] && arrivals == old(arrivals)
    {
      buffer := buffer[n..];
    }
  }

  /** The position of the first newline, or the length. */
  function NewlineAt(bytes: seq<byte>): (p: nat)
    ensures p <= |bytes|
  {
    if bytes == [] || bytes[0] == NEWLINE then 0 else NewlineAt(bytes[1..]) + 1
  }

  lemma {:induction false} NewlineIsThere(bytes: seq<byte>)
    ensures NewlineAt(bytes) < |bytes| ==> bytes[NewlineAt(bytes)] == NEWLINE
    ensures NewlineAt(bytes) == |bytes| <==> NEWLINE !in bytes
  {
    if bytes != [] {
      NewlineIsThere(bytes[1..]);
      assert bytes == [bytes[0]] + bytes[1..];
    }
  }

  /** The first newline of a concatenation is in the first part, if it has one. */
  lemma {:induction false} NewlineInConcat(a: seq<byte>, b: seq<byte>)
    ensures NewlineAt(a + b) == if NewlineAt(a) < |a| then NewlineAt(a) else |a| + NewlineAt(b)
  {
    if a == [] {
      assert a + b == b;
    } else {
      assert (a + b)[1..] == a[1..] + b;
      NewlineInConcat(a[1..], b);
    }
  }

  /** The next line, as a function of the byte stream alone. */
  function LineOf(stream: seq<byte>, failing: bool, limit: nat): LineResult {
    var p := NewlineAt(stream);
    if p < |stream| then
      if p + 1 > limit then Err(TooLarge(limit)) else Ok(Some(stream[..p + 1]))
    else if |stream| > limit then Err(TooLarge(limit))
    else if failing then Err(Io)
    else if stream == [] then Ok(None)
    else Err(UnexpectedEof)
  }

  /**
   * The line a stream begins with: what comes up to and with its first newline, if that fits; more
   * than the limit without a newline does not fit either; a shorter rest is reported as what cut it
   * short. The stream here is given by its parts, whatever reads it arrived in.
   */
  lemma NextLineExactly(line: seq<byte>, rest: seq<byte>, failing: bool, limit: nat)
    requires NEWLINE !in line
    ensures LineOf(line + [NEWLINE] + rest, failing, limit)
            == if |line| + 1 <= limit then Ok(Some(line + [NEWLINE])) else Err(TooLarge(limit))
    ensures LineOf(line, failing, limit)
            == if |line| > limit then Err(TooLarge(limit))
               else if failing then Err(Io)
               else if line == [] then Ok(None)
               else Err(UnexpectedEof)
  {
    var stream := line + [NEWLINE] + rest;
    NewlineIsThere(line);
    NewlineIsThere([NEWLINE]);
    NewlineInConcat(line + [NEWLINE], rest);
    NewlineInConcat(line, [NEWLINE]);
    assert NewlineAt(stream) == |line|;
    assert stream[..|line| + 1] == line + [NEWLINE];
    hide NewlineAt;
  }

  /** Reading over arbitrary read boundaries yields the next line of the flat stream and leaves exactly the rest. */
  method ReadLimitedLine(reader: BufferedReader, limit: nat) returns (result: LineResult)
    requires reader.Valid()
    modifies reader
    ensures reader.Valid() && reader.Failing() == old(reader.Failing())
    ensures result == LineOf(old(reader.Stream()), old(reader.Failing()), limit)
    ensures result.Ok? && result.value.Some? ==>
              0 < |result.value.value| <= |old(reader.Stream())|
              && reader.Stream() == old(reader.Stream())[|result.value.value|..]
  {
    hide NewlineAt, Flatten, EndsInFailure;
    var line: seq<byte> := [];
    ghost var whole := reader.Stream();
    while true
      invariant reader.Valid() && reader.Failing() == old(reader.Failing())
      invariant line + reader.Stream() == whole
      invariant NewlineAt(line) == |line| <= limit
      decreases |reader.Stream()|
    {
      var available := reader.FillBuf();
      if available.None? {
        assert line == whole;
        return Err(Io);
      }
      var bytes := available.value;
      if bytes == [] {
        assert line == whole;
        return if line == [] then Ok(None) else Err(UnexpectedEof);
      }
      var position := NewlineAt(bytes);
      var consumed := if position < |bytes| then position + 1 else |bytes|;
      LineGrows(line, bytes, Flatten(reader.arrivals));
      assert whole == line + bytes + Flatten(reader.arrivals);
      if |line| + consumed > limit {
        return Err(TooLarge(limit));
      }
      LineMoves(line, bytes, Flatten(reader.arrivals), consumed);
      var complete := bytes[consumed - 1] == NEWLINE;
      reader.Consume(consumed);
      line := line + bytes[..consumed];
      if complete {
        return Ok(Some(line));
      }
    }
  }

  /** Where the first newline of the whole stream is, seen from one buffered stretch of it. */
  lemma LineGrows(line: seq<byte>, bytes: seq<byte>, rest: seq<byte>)
    requires NewlineAt(line) == |line| && bytes != []
    ensures var position := NewlineAt(bytes);
            if position < |bytes| then
              && NewlineAt(line + bytes + rest) == |line| + position
              && bytes[position] == NEWLINE
            else
              && NewlineAt(line + bytes + rest) >= |line| + |bytes|
              && NewlineAt(line + bytes[..|bytes|]) == |line| + |bytes|
              && bytes[|bytes| - 1] != NEWLINE
  {
    hide NewlineAt;
    NewlineInConcat(line + bytes, rest);
    NewlineInConcat(line, bytes);
    NewlineIsThere(bytes);
    assert bytes[..|bytes|] == bytes;
  }

  /** Moving a stretch from the buffer to the line leaves the whole stream as it was. */
  lemma LineMoves(line: seq<byte>, bytes: seq<byte>, rest: seq<byte>, consumed: nat)
    requires consumed <= |bytes|
    ensures (line + bytes[..consumed]) + (bytes[consumed..] + rest) == line + bytes + rest
    ensures (line + bytes + rest)[|line| + consumed..] == bytes[consumed..] + rest
    ensures (line + bytes + rest)[..|line| + consumed] == line + bytes[..consumed]
  {
  }

  // ----- the reader loop -----

  /** One line through the JSON parser and the decoder. */
  function PushedLine(codec: Codec, d: DecoderState, line: seq<byte>): (DecoderState, PushResult) {
    match codec.decode(line)
    case None => (d, Err(InvalidJson))
    case Some(message) => Pushed(codec, d, message)
  }

  /** Everything the stdout reader reports, as a function of the byte stream alone. */
  function StdoutItems(codec: Codec, d: DecoderState, stream: seq<byte>, failing: bool, limit: nat): seq<ReaderItem>
    decreases |stream|
  {
    match LineOf(stream, failing, limit)
    case Err(error) => [LineFailed(error)]
    case Ok(None) => [if d.pending.Some? then EndedMidSequence else Eof]
    case Ok(Some(line)) =>
      var (next, result) := PushedLine(codec, d, line);
      match result
      case Err(error) => [DecodeFailed(error)]
      case Ok(out) =>
        (if out.Some? then [Frame(out.value)] else [])
        + StdoutItems(codec, next, stream[|line|..], failing, limit)
  }

  /** What one more line adds to the report. */
  lemma ReportGrows(
    codec: Codec, d: DecoderState, stream: seq<byte>, failing: bool, limit: nat, line: seq<byte>, items: seq<ReaderItem>)
    requires LineOf(stream, failing, limit) == Ok(Some(line)) && 0 < |line| <= |stream|
    ensures var (next, result) := PushedLine(codec, d, line);
            items + StdoutItems(codec, d, stream, failing, limit) ==
            match result
            case Err(error) => items + [DecodeFailed(error)]
            case Ok(None) => items + StdoutItems(codec, next, stream[|line|..], failing, limit)
            case Ok(Some(message)) =>
              (items + [Frame(message)]) + StdoutItems(codec, next, stream[|line|..], failing, limit)
  {
    NextReport(codec, d, stream, failing, limit, line);
    hide StdoutItems, PushedLine, LineOf;
    var (next, result) := PushedLine(codec, d, line);
    if result.Ok? {
      var more := StdoutItems(codec, next, stream[|line|..], failing, limit);
      assert [] + more == more;
      if result.value.Some? {
        assert items + ([Frame(result.value.value)] + more) == (items + [Frame(result.value.value)]) + more;
      }
    }
  }

  lemma NextReport(codec: Codec, d: DecoderState, stream: seq<byte>, failing: bool, limit: nat, line: seq<byte>)
    requires LineOf(stream, failing, limit) == Ok(Some(line)) && 0 < |line| <= |stream|
    ensures var (next, result) := PushedLine(codec, d, line);
            StdoutItems(codec, d, stream, failing, limit) ==
            match result
            case Err(error) => [DecodeFailed(error)]
            case Ok(out) =>
              (if out.Some? then [Frame(out.value)] else [])
              + StdoutItems(codec, next, stream[|line|..], failing, limit)
  {
    hide PushedLine, LineOf;
  }

  /** A report is the frames that came out, and then the one reason why no more will. */
  lemma {:induction false} ReportEndsOnce(codec: Codec, d: DecoderState, stream: seq<byte>, failing: bool, limit: nat)
    ensures var items := StdoutItems(codec, d, stream, failing, limit);
            && items != [] && !items[|items| - 1].Frame?
            && forall i :: 0 <= i < |items| - 1 ==> items[i].Frame?
    decreases |stream|
  {
    var read := LineOf(stream, failing, limit);
    if read.Ok? && read.value.Some? {
      var line := read.value.value;
      LineIsNotEmpty(stream, failing, limit);
      NextReport(codec, d, stream, failing, limit, line);
      hide LineOf, PushedLine;
      var (next, result) := PushedLine(codec, d, line);
      if result.Ok? {
        ReportEndsOnce(codec, next, stream[|line|..], failing, limit);
      }
    }
  }

  lemma LineIsNotEmpty(stream: seq<byte>, failing: bool, limit: nat)
    ensures var read := LineOf(stream, failing, limit);
            read.Ok? && read.value.Some? ==> 0 < |read.value.value| <= |stream|
  {
  }

  function Upto<T>(s: seq<T>, n: nat): seq<T> {
    if |s| <= n then s else s[..n]
  }

  /**
   * `room` is how many items the actor takes before it is gone; the reader stops at the first frame it
   * cannot hand over.
   */
  method ReadStdout(codec: Codec, reader: BufferedReader, decoder: RpcFrameDecoder, limit: nat, room: nat)
    returns (items: seq<ReaderItem>)
    requires reader.Valid()
    modifies reader, decoder
    ensures items == Upto(StdoutItems(codec, old(decoder.View()), old(reader.Stream()), old(reader.Failing()), limit), room)
  {
    hide Pushed, LineOf;
    items := [];
    ghost var all := StdoutItems(codec, decoder.View(), reader.Stream(), reader.Failing(), limit);
    while true
      invariant reader.Valid() && |items| <= room
      invariant all == items + StdoutItems(codec, decoder.View(), reader.Stream(), reader.Failing(), limit)
      decreases |reader.Stream()|
    {
      ghost var d, stream, failing := decoder.View(), reader.Stream(), reader.Failing();
      var read := ReadLimitedLine(reader, limit);
      match read {
        case Err(error) =>
          items := Upto(items + [LineFailed(error)], room);
          return;
        case Ok(None) =>
          items := Upto(items + [if decoder.IsReassembling() then EndedMidSequence else Eof], room);
          return;
        case Ok(Some(line)) =>
          hide StdoutItems;
          ReportGrows(codec, d, stream, failing, limit, line, items);
          var parsed := codec.decode(line);
          if parsed.None? {
            items := Upto(items + [DecodeFailed(InvalidJson)], room);
            return;
          }
          var result := decoder.Push(codec, parsed.value);
          match result {
            case Err(error) =>
              items := Upto(items + [DecodeFailed(error)], room);
              return;
            case Ok(None) =>
            case Ok(Some(message)) =>
              if |items| == room {
                return;
              }
              items := items + [Frame(message)];
          }
      }
    }
  }

  // ----- what the child wrote -----

  /** A message on one line, or split into chunk lines. */
  datatype Rendered = Whole(message: RpcMessage) | InChunks(message: RpcMessage, chunkId: string)

  function Line(codec: Codec, message: RpcMessage): seq<byte> {
    codec.encode(message) + [NEWLINE]
  }

  function Lines(codec: Codec, messages: seq<RpcMessage>): seq<byte> {
    if messages == [] then [] else Line(codec, messages[0]) + Lines(codec, messages[1..])
  }

  /** The physical messages of a rendering. */
  function Physical(codec: Codec, item: Rendered): seq<RpcMessage>
    requires item.InChunks? ==> Splittable(codec.encode(item.message), item.chunkId)
  {
    match item
    case Whole(message) => [message]
    case InChunks(message, chunkId) => ChunkMessages(Split(codec.encode(message), chunkId))
  }

  /** Each line fits the physical limit, and a split message fits the reassembly limit in force. */
  predicate Fits(codec: Codec, item: Rendered, limit: nat, reassembly: nat) {
    && !item.message.Chunk?
    && (item.InChunks? ==>
          Splittable(codec.encode(item.message), item.chunkId) && |codec.encode(item.message)| <= reassembly)
    && forall i :: 0 <= i < |Physical(codec, item)| ==> |Line(codec, Physical(codec, item)[i])| <= limit
  }

  /** A ready frame on a line of its own sets the limit; one that arrives in chunks does not. */
  function LimitAfter(item: Rendered, reassembly: nat): nat {
    if item.Whole? && item.message.Ready? then item.message.maxReassembledFrameBytes else reassembly
  }

  predicate AllFit(codec: Codec, items: seq<Rendered>, limit: nat, reassembly: nat) {
    items == []
    || (Fits(codec, items[0], limit, reassembly) && AllFit(codec, items[1..], limit, LimitAfter(items[0], reassembly)))
  }

  function Render(codec: Codec, items: seq<Rendered>, limit: nat, reassembly: nat): seq<byte>
    requires AllFit(codec, items, limit, reassembly)
  {
    if items == [] then []
    else Lines(codec, Physical(codec, items[0]))
         + Render(codec, items[1..], limit, LimitAfter(items[0], reassembly))
  }

  function Delivered(items: seq<Rendered>): seq<ReaderItem> {
    if items == [] then [] else [Frame(items[0].message)] + Delivered(items[1..])
  }

  function Frames(messages: seq<RpcMessage>): seq<ReaderItem> {
    seq(|messages|, i requires 0 <= i < |messages| => Frame(messages[i]))
  }

  /** A line that fits is read back as exactly its message, and the stream continues behind it. */
  lemma LineIsReadBack(codec: Codec, message: RpcMessage, rest: seq<byte>, failing: bool, limit: nat)
    requires RoundTrips(codec, message) && |Line(codec, message)| <= limit
    ensures var stream := Line(codec, message) + rest;
            && LineOf(stream, failing, limit) == Ok(Some(Line(codec, message)))
            && stream[|Line(codec, message)|..] == rest
            && codec.decode(Line(codec, message)) == Some(message)
  {
    var stream := Line(codec, message) + rest;
    var p := |codec.encode(message)|;
    assert stream == codec.encode(message) + ([NEWLINE] + rest);
    NewlineIsThere(codec.encode(message));
    NewlineInConcat(codec.encode(message), [NEWLINE] + rest);
    assert stream[..p + 1] == Line(codec, message);
  }

  lemma OneLineIsPushed(
    codec: Codec, d: DecoderState, message: RpcMessage, rest: seq<byte>, failing: bool, limit: nat)
    requires RoundTrips(codec, message) && |Line(codec, message)| <= limit
    requires Pushed(codec, d, message).1.Ok?
    ensures var (next, result) := Pushed(codec, d, message);
            StdoutItems(codec, d, Line(codec, message) + rest, failing, limit) ==
            (if result.value.Some? then [Frame(result.value.value)] else [])
            + StdoutItems(codec, next, rest, failing, limit)
  {
    hide Pushed, LineOf, Line;
    LineIsReadBack(codec, message, rest, failing, limit);
  }

  /** Lines that the decoder accepts are consumed one by one, and their results come out in order. */
  lemma {:induction false} LinesArePushed(
    codec: Codec, d: DecoderState, messages: seq<RpcMessage>, rest: seq<byte>, failing: bool, limit: nat)
    requires Faithful(codec)
    requires forall i :: 0 <= i < |messages| ==> |Line(codec, messages[i])| <= limit
    requires PushAll(codec, d, messages).2.None?
    ensures var (final, out, _) := PushAll(codec, d, messages);
            StdoutItems(codec, d, Lines(codec, messages) + rest, failing, limit) ==
            Frames(out) + StdoutItems(codec, final, rest, failing, limit)
    decreases |messages|
  {
    hide Pushed, StdoutItems, Line;
    if messages == [] {
      assert [] + rest == rest;
    } else {
      var tail := Lines(codec, messages[1..]) + rest;
      assert Lines(codec, messages) + rest == Line(codec, messages[0]) + tail;
      assert RoundTrips(codec, messages[0]);
      OneLineIsPushed(codec, d, messages[0], tail, failing, limit);
      var (next, result) := Pushed(codec, d, messages[0]);
      LinesArePushed(codec, next, messages[1..], rest, failing, limit);
      var (final, more, _) := PushAll(codec, next, messages[1..]);
      var first := if result.value.Some? then [result.value.value] else [];
      assert Frames(first + more) == Frames(first) + Frames(more);
    }
  }

  /** Either rendering of a message comes out of the decoder as that one message. */
  lemma PhysicalDecodes(codec: Codec, item: Rendered, limit: nat, reassembly: nat)
    requires Faithful(codec) && Fits(codec, item, limit, reassembly)
    ensures PushAll(codec, DecoderState(None, reassembly), Physical(codec, item))
            == (DecoderState(None, LimitAfter(item, reassembly)), [item.message], None)
  {
    assert RoundTrips(codec, item.message);
    match item
    case Whole(message) =>
      var (next, result) := Pushed(codec, DecoderState(None, reassembly), message);
      assert [message][1..] == [];
      assert PushAll(codec, next, []) == (next, [], None);
      assert [message] + [] == [message];
    case InChunks(message, chunkId) =>
      var bytes := codec.encode(message);
      PiecesAreValidChunks(bytes, chunkId, 0);
      SplitThenReassemble(codec, message, chunkId, reassembly, 0);
      assert Split(bytes, chunkId)[0..] == Split(bytes, chunkId);
  }

  /**
   * Transparency: whatever list of messages was written, each whole or in chunks within the limits,
   * the pipeline reports exactly that list in order and then the end of the stream.
   */
  lemma {:induction false} PipelineIsTransparent(codec: Codec, items: seq<Rendered>, limit: nat, reassembly: nat)
    requires Faithful(codec) && AllFit(codec, items, limit, reassembly)
    ensures StdoutItems(codec, DecoderState(None, reassembly), Render(codec, items, limit, reassembly), false, limit)
            == Delivered(items) + [Eof]
    decreases |items|
  {
    if items == [] {
      assert NewlineAt([]) == 0;
      assert [] + [Eof] == [Eof];
    } else {
      hide Fits, Pushed, LineOf, Split;
      var physical := Physical(codec, items[0]);
      var after := LimitAfter(items[0], reassembly);
      FitsGivesLimits(codec, items[0], limit, reassembly);
      PhysicalDecodes(codec, items[0], limit, reassembly);
      var rest := Render(codec, items[1..], limit, after);
      LinesArePushed(codec, DecoderState(None, reassembly), physical, rest, false, limit);
      PipelineIsTransparent(codec, items[1..], limit, after);
      assert Frames([items[0].message]) == [Frame(items[0].message)];
      assert [Frame(items[0].message)] + (Delivered(items[1..]) + [Eof]) == Delivered(items) + [Eof];
    }
  }

  lemma FitsGivesLimits(codec: Codec, item: Rendered, limit: nat, reassembly: nat)
    requires Fits(codec, item, limit, reassembly)
    ensures item.InChunks? ==> Splittable(codec.encode(item.message), item.chunkId)
    ensures forall i :: 0 <= i < |Physical(codec, item)| ==> |Line(codec, Physical(codec, item)[i])| <= limit
  {
  }

  /**
   * The imperative pipeline on any partition of the written bytes into reads: the items depend only
   * on the bytes, and are the written messages in order, as many as the actor takes.
   */
  method ReadWritten(
    codec: Codec, arrivals: seq<ReadEvent>, ghost items: seq<Rendered>, limit: nat, reassembly: nat, room: nat)
    returns (reported: seq<ReaderItem>)
    requires Faithful(codec) && AllFit(codec, items, limit, reassembly)
    requires forall i :: 0 <= i < |arrivals| ==> arrivals[i].NonEmpty()
    requires Flatten(arrivals) == Render(codec, items, limit, reassembly) && !EndsInFailure(arrivals)
    ensures reported == Upto(Delivered(items) + [Eof], room)
    ensures room > |items| ==> reported == Delivered(items) + [Eof]
  {
    hide Faithful, AllFit, StdoutItems, Render;
    var reader := new BufferedReader(arrivals);
    var decoder := new RpcFrameDecoder(reassembly);
    PipelineIsTransparent(codec, items, limit, reassembly);
    DeliveredOnePerItem(items);
    reported := ReadStdout(codec, reader, decoder, limit, room);
  }

  lemma {:induction false} DeliveredOnePerItem(items: seq<Rendered>)
    ensures |Delivered(items)| == |items|
  {
    if items != [] {
      DeliveredOnePerItem(items[1..]);
    }
  }
}
