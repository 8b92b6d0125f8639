/** A concrete codec with the properties that the pipeline's results ask of the JSON one. */
module ReferenceCodec {
  import opened Prelude
  import opened RpcFrames

  function Field(n: nat): seq<byte> {
    if n == 0 then [2] else [1] + Field(n - 1)
  }

  function Text(s: string): seq<byte> {
    if s == "" then [4] else [3] + (Field(s[0] as int) + Text(s[1..]))
  }

  /** Newlines are escaped, so that the end of the line is the only one. */
  function Escaped(bytes: seq<byte>): seq<byte> {
    if bytes == [] then []
    else (if bytes[0] == NEWLINE then [11, 1] else if bytes[0] == 11 then [11, 2] else [bytes[0]]) + Escaped(bytes[1..])
  }

  function Encode(m: RpcMessage): seq<byte> {
    match m
    case Ready(a, b) => [5] + (Field(a) + (Field(b) + []))
    case Other(body) => [6] + Escaped(body)
    case Chunk(c) =>
      [7] + (Field(c.index) + (Field(c.count) + (Field(c.byteLength) + (Text(c.chunkId) + Escaped(c.data)))))
  }

  lemma {:induction false} FieldIsPrefix(a: nat, b: nat, x: seq<byte>, y: seq<byte>)
    requires Field(a) + x == Field(b) + y
    ensures a == b && x == y
  {
    assert (Field(a) + x)[0] == (Field(b) + y)[0];
    assert (Field(a) + x)[1..] == if a == 0 then x else Field(a - 1) + x;
    assert (Field(b) + y)[1..] == if b == 0 then y else Field(b - 1) + y;
    if a > 0 {
      FieldIsPrefix(a - 1, b - 1, x, y);
    }
  }

  /** The head of a text and what follows it. */
  lemma TextHead(s: string, x: seq<byte>)
    ensures Text(s) + x != []
    ensures (Text(s) + x)[0] == Text(s)[0]
    ensures (Text(s) + x)[1..] == if s == "" then x else Field(s[0] as int) + (Text(s[1..]) + x)
  {
    hide Field;
  }

  lemma {:induction false} TextIsPrefix(s: string, t: string, x: seq<byte>, y: seq<byte>)
    requires Text(s) + x == Text(t) + y
    ensures s == t && x == y
  {
    hide Field;
    TextHead(s, x);
    TextHead(t, y);
    if s != "" {
      FieldIsPrefix(s[0] as int, t[0] as int, Text(s[1..]) + x, Text(t[1..]) + y);
      TextIsPrefix(s[1..], t[1..], x, y);
      assert s == [s[0]] + s[1..] && t == [t[0]] + t[1..];
    }
  }

  lemma {:induction false} EscapedIsInjective(a: seq<byte>, b: seq<byte>)
    requires Escaped(a) == Escaped(b)
    ensures a == b
  {
    if a != [] && b != [] {
      assert Escaped(a)[0] == Escaped(b)[0];
      if Escaped(a)[0] == 11 {
        assert Escaped(a)[1] == Escaped(b)[1];
        assert Escaped(a)[2..] == Escaped(a[1..]) && Escaped(b)[2..] == Escaped(b[1..]);
      } else {
        assert Escaped(a)[1..] == Escaped(a[1..]) && Escaped(b)[1..] == Escaped(b[1..]);
      }
      EscapedIsInjective(a[1..], b[1..]);
      assert a == [a[0]] + a[1..] && b == [b[0]] + b[1..];
    }
  }

  lemma EncodeIsInjective(m: RpcMessage, n: RpcMessage)
    requires Encode(m) == Encode(n)
    ensures m == n
  {
    hide Field, Text, Escaped;
    assert Encode(m)[0] == Encode(n)[0];
    assert Encode(m)[1..] == Encode(n)[1..];
    match m {
      case Ready(a, b) =>
        assert Encode(m)[1..] == Field(a) + (Field(b) + []);
        FieldIsPrefix(a, n.maxFrameBytes, Field(b) + [], Field(n.maxReassembledFrameBytes) + []);
        FieldIsPrefix(b, n.maxReassembledFrameBytes, [], []);
      case Other(body) =>
        assert Encode(m)[1..] == Escaped(body);
        EscapedIsInjective(body, n.body);
      case Chunk(c) =>
        var d := n.chunk;
        var c4, d4 := Text(c.chunkId) + Escaped(c.data), Text(d.chunkId) + Escaped(d.data);
        var c3, d3 := Field(c.byteLength) + c4, Field(d.byteLength) + d4;
        var c2, d2 := Field(c.count) + c3, Field(d.count) + d3;
        assert Encode(m)[1..] == Field(c.index) + c2;
        FieldIsPrefix(c.index, d.index, c2, d2);
        FieldIsPrefix(c.count, d.count, c3, d3);
        FieldIsPrefix(c.byteLength, d.byteLength, c4, d4);
        TextIsPrefix(c.chunkId, d.chunkId, Escaped(c.data), Escaped(d.data));
        EscapedIsInjective(c.data, d.data);
    }
  }

  lemma {:induction false} FieldHasNoNewline(n: nat)
    ensures NEWLINE !in Field(n)
  {
    if n > 0 {
      FieldHasNoNewline(n - 1);
    }
  }

  lemma TextHasNoNewline(s: string)
    ensures NEWLINE !in Text(s)
  {
    if s != "" {
      FieldHasNoNewline(s[0] as int);
      TextHasNoNewline(s[1..]);
    }
  }

  lemma {:induction false} EscapedHasNoNewline(bytes: seq<byte>)
    ensures NEWLINE !in Escaped(bytes)
  {
    if bytes != [] {
      EscapedHasNoNewline(bytes[1..]);
    }
  }

  lemma EncodeHasNoNewline(m: RpcMessage)
    ensures NEWLINE !in Encode(m)
  {
    hide Field, Text, Escaped;
    match m {
      case Ready(a, b) => FieldHasNoNewline(a); FieldHasNoNewline(b);
      case Other(body) => EscapedHasNoNewline(body);
      case Chunk(c) =>
        FieldHasNoNewline(c.index);
        FieldHasNoNewline(c.count);
        FieldHasNoNewline(c.byteLength);
        TextHasNoNewline(c.chunkId);
        EscapedHasNoNewline(c.data);
    }
  }

  predicate Reads(m: RpcMessage, bytes: seq<byte>) {
    Encode(m) == bytes || Encode(m) + [NEWLINE] == bytes
  }

  ghost function Decode(bytes: seq<byte>): Option<RpcMessage> {
    if exists m :: Reads(m, bytes) then var m :| Reads(m, bytes); Some(m) else None
  }

  /** The codec properties are not contradictory: this codec has them for every message. */
  lemma FaithfulCodecExists() returns (codec: Codec)
    ensures Faithful(codec)
  {
    codec := Codec(Encode, Decode, _ => true);
    forall m ensures RoundTrips(codec, m) {
      EncodeHasNoNewline(m);
      ReadsOnlyOne(m, Encode(m));
      ReadsOnlyOne(m, Encode(m) + [NEWLINE]);
    }
  }

  lemma ReadsOnlyOne(m: RpcMessage, bytes: seq<byte>)
    requires Reads(m, bytes)
    ensures Decode(bytes) == Some(m)
  {
    hide Encode;
    forall n | Reads(n, bytes) ensures n == m {
      EncodeHasNoNewline(m);
      EncodeHasNoNewline(n);
      assert (Encode(m) + [NEWLINE])[..|Encode(m)|] == Encode(m);
      assert (Encode(n) + [NEWLINE])[..|Encode(n)|] == Encode(n);
      assert NEWLINE in Encode(m) + [NEWLINE] && NEWLINE in Encode(n) + [NEWLINE];
      EncodeIsInjective(m, n);
    }
  }
}
