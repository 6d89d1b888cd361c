/** The link's frames: the 32-byte header of clientcommon.h, the frames clientbase.cpp builds,
    and the parser that its receive loop refines. */
module Frames {
  import opened Words
  import opened Md5Spec
  import Md5Checksum

  const HEADER: nat := 32
  const BUFFER_SIZE: nat := 65536
  const APP_FLAG: seq<Byte> := [67, 88, 49, 56, 48]  // "CX180"

  const MSG_DATA_CORRECT: Word := 0
  const MSG_DATA_ERROR: Word := 1
  const MSG_CONNECT: Word := 2

  type Hash = h: seq<Byte> | |h| == 16 witness Zeros(16)
  type Header = h: seq<Byte> | |h| == HEADER witness Zeros(32)

  // ---- Layout: digest (16), flag (8), length (4), type (4) ----

  /** The header after its digest, with the flag's three spare bytes left zero. */
  function HeaderTail(length: Word, typ: Word): (tail: seq<Byte>)
    ensures |tail| == 16
  {
    APP_FLAG + [0, 0, 0] + EncodeWord(length) + EncodeWord(typ)
  }

  function HashOf(h: Header): Hash { h[..16] }
  function LengthOf(h: Header): Word { DecodeWord(h[24..28]) }
  function TypeOf(h: Header): Word { DecodeWord(h[28..32]) }
  predicate Flagged(h: Header) { h[16..21] == APP_FLAG }

  lemma HeaderFields(hash: Hash, length: Word, typ: Word)
    ensures
      var h: Header := hash + HeaderTail(length, typ);
      Flagged(h) && HashOf(h) == hash && LengthOf(h) == length && TypeOf(h) == typ
  {
    var h: Header := hash + HeaderTail(length, typ);
    assert h[16..21] == APP_FLAG;
    assert h[24..28] == EncodeWord(length) && h[28..32] == EncodeWord(typ);
    DecodeEncode(length);
    DecodeEncode(typ);
  }

  /** A number in four bytes, the lowest first. */
  function Number(b0: Byte, b1: Byte, b2: Byte, b3: Byte): nat {
    b0 as nat + 256 * b1 as nat + 65536 * b2 as nat + 16777216 * b3 as nat
  }

  /** The header byte by byte: the digest, "CX180" and three zeros, the length, the type. */
  lemma HeaderBytes(hash: Hash, length: Word, typ: Word)
    ensures
      var h: Header := hash + HeaderTail(length, typ);
      && h[..16] == hash && h[16..24] == [67, 88, 49, 56, 48, 0, 0, 0]
      && Number(h[24], h[25], h[26], h[27]) == length && Number(h[28], h[29], h[30], h[31]) == typ
  {
    DecodeEncode(length);
    DecodeEncode(typ);
    var h: Header := hash + HeaderTail(length, typ);
    assert h[24..28] == EncodeWord(length) && h[28..32] == EncodeWord(typ);
    assert h[24] == h[24..28][0] && h[25] == h[24..28][1] && h[26] == h[24..28][2] && h[27] == h[24..28][3];
    assert h[28] == h[28..32][0] && h[29] == h[28..32][1] && h[30] == h[28..32][2] && h[31] == h[28..32][3];
  }

  // ---- The three kinds of frame the program builds ----

  type Payload = p: seq<Byte> | |p| + HEADER < WORD_LIMIT

  function DataFrame(typ: Word, payload: Payload): (frame: seq<Byte>)
    ensures |frame| == HEADER + |payload|
  {
    FrameHash(typ, payload) + HeaderTail(|payload|, typ) + payload
  }

  function FrameHash(typ: Word, payload: Payload): Hash {
    Digest(HeaderTail(|payload|, typ) + payload)
  }

  function ReplyFrame(hash: Hash, correct: bool): (frame: Header) {
    hash + HeaderTail(0, if correct then MSG_DATA_CORRECT else MSG_DATA_ERROR)
  }

  /** Builds a frame; a null data pointer with a positive length is refused. */
  method CreateFrame(data: array?<Byte>, length: Word, typ: Word) returns (buffer: array?<Byte>)
    requires length + HEADER < WORD_LIMIT
    requires data != null ==> length <= data.Length
    ensures buffer == null <==> data == null && length != 0
    ensures buffer != null ==> fresh(buffer)
    ensures buffer != null ==> buffer[..] == DataFrame(typ, if data == null then [] else data[..length])
  {
    hide Digest, HeaderTail;
    if data == null && length != 0 {
      return null;
    }
    var payload: Payload := if data == null then [] else data[..length];
    var frame := new Byte[HEADER + length];
    Md5Checksum.Memcpy(frame, 0, Zeros(16) + HeaderTail(length, typ));
    Md5Checksum.Memcpy(frame, HEADER, payload);
    ghost var body := HeaderTail(length, typ) + payload;
    assert frame[16..] == body;
    var md5hash := Md5Checksum.MDBytes(frame[16..]);
    Md5Checksum.Memcpy(frame, 0, md5hash[..]);
    assert frame[..] == Digest(body) + body;
    buffer := frame;
  }

  // ---- Parsing ----

  datatype Item =
    | Noise(header: Header)
    | Reply(hash: Hash, correct: bool)
    | Connect
    | Data(header: Header, payload: seq<Byte>)

  datatype Parsed = Parsed(items: seq<Item>, rest: seq<Byte>)

  /** How many bytes the receive loop reads after a header: none unless it opens a data frame. */
  function PayloadLength(h: Header): Word {
    if Flagged(h) && TypeOf(h) > MSG_CONNECT then LengthOf(h) else 0
  }

  function ItemOf(h: Header, payload: seq<Byte>): Item {
    if !Flagged(h) then Noise(h)
    else if TypeOf(h) == MSG_DATA_CORRECT then Reply(HashOf(h), true)
    else if TypeOf(h) == MSG_DATA_ERROR then Reply(HashOf(h), false)
    else if TypeOf(h) == MSG_CONNECT then Connect
    else Data(h, payload)
  }

  /** The items of a byte stream, and the bytes of a last one not yet complete. */
  function Parse(stream: seq<Byte>): Parsed
    decreases |stream|
  {
    if |stream| < HEADER then Parsed([], stream)
    else
      var h: Header := stream[..HEADER];
      var end := HEADER + PayloadLength(h);
      if |stream| < end then Parsed([], stream)
      else
        var later := Parse(stream[end..]);
        Parsed([ItemOf(h, stream[HEADER..end])] + later.items, later.rest)
  }

  /** What a header's bytes mean: without "CX180" the block is noise; type 0 is a positive reply, 1 a
      negative one, 2 a connect message, and only higher types are data, of the length declared. */
  lemma BytesToItem(h: Header, payload: seq<Byte>)
    ensures
      var typ := Number(h[28], h[29], h[30], h[31]);
      var length := Number(h[24], h[25], h[26], h[27]);
      && PayloadLength(h) == (if h[16..21] == [67, 88, 49, 56, 48] && typ > 2 then length else 0)
      && ItemOf(h, payload) ==
           if h[16..21] != [67, 88, 49, 56, 48] then Noise(h)
           else if typ == 0 then Reply(h[..16], true)
           else if typ == 1 then Reply(h[..16], false)
           else if typ == 2 then Connect
           else Data(h, payload)
  {
  }

  /** The 32 bytes of a reply, and of a connect frame after its digest. */
  lemma ReplyBytes(hash: Hash, correct: bool)
    ensures ReplyFrame(hash, correct)
         == hash + [67, 88, 49, 56, 48, 0, 0, 0, 0, 0, 0, 0, if correct then 0 else 1, 0, 0, 0]
    ensures Bytes(ConnectMessage)[16..] == [67, 88, 49, 56, 48, 0, 0, 0, 0, 0, 0, 0, 2, 0, 0, 0]
  {
    hide Digest;
    assert EncodeWord(0) == [0, 0, 0, 0] && EncodeWord(1) == [1, 0, 0, 0] && EncodeWord(2) == [2, 0, 0, 0];
  }

  /** The receive loop's check: the digest covers the second half of the header and the payload. */
  predicate Verified(h: Header, payload: seq<Byte>) {
    Digest(h[16..] + payload) == HashOf(h)
  }

  predicate Complete(stream: seq<Byte>) {
    |stream| >= HEADER && |stream| >= HEADER + PayloadLength(stream[..HEADER])
  }

  lemma ParseStep(stream: seq<Byte>)
    requires Complete(stream)
    ensures
      var end := HEADER + PayloadLength(stream[..HEADER]);
      var later := Parse(stream[end..]);
      Parse(stream) == Parsed([ItemOf(stream[..HEADER], stream[HEADER..end])] + later.items, later.rest)
  {
  }

  lemma ParseStuck(stream: seq<Byte>)
    requires !Complete(stream)
    ensures Parse(stream) == Parsed([], stream)
  {
  }

  /** Parsing can stop after any prefix and resume from what was left over. */
  lemma {:induction false} ParseResumes(a: seq<Byte>, b: seq<Byte>)
    ensures
      var first, later := Parse(a), Parse(Parse(a).rest + b);
      Parse(a + b) == Parsed(first.items + later.items, later.rest)
    decreases |a|
  {
    hide Parse, PayloadLength, ItemOf;
    if Complete(a) {
      var end := HEADER + PayloadLength(a[..HEADER]);
      assert (a + b)[..HEADER] == a[..HEADER];
      assert (a + b)[HEADER..end] == a[HEADER..end];
      assert (a + b)[end..] == a[end..] + b;
      ParseStep(a);
      ParseStep(a + b);
      ParseResumes(a[end..], b);
    } else {
      ParseStuck(a);
    }
  }

  /** What has been parsed stays parsed: the items of a prefix are a prefix of the items. */
  lemma ParseOfPrefix(a: seq<Byte>, b: seq<Byte>)
    ensures Parse(a).items <= Parse(a + b).items
  {
    ParseResumes(a, b);
  }

  /** No complete item is ever left over. */
  lemma {:induction false} RestIsIncomplete(stream: seq<Byte>)
    ensures Parse(Parse(stream).rest) == Parsed([], Parse(stream).rest)
    decreases |stream|
  {
    if Complete(stream) {
      RestIsIncomplete(stream[HEADER + PayloadLength(stream[..HEADER])..]);
    }
  }

  // ---- Round trip ----

  datatype Message =
    | DataMessage(typ: Word, payload: Payload)
    | ReplyMessage(hash: Hash, correct: bool)
    | ConnectMessage

  function Bytes(m: Message): seq<Byte> {
    match m
    case DataMessage(typ, payload) => DataFrame(typ, payload)
    case ReplyMessage(hash, correct) => ReplyFrame(hash, correct)
    case ConnectMessage => DataFrame(MSG_CONNECT, [])
  }

  function Stream(messages: seq<Message>): seq<Byte> {
    if messages == [] then [] else Bytes(messages[0]) + Stream(messages[1..])
  }

  /** The item carries exactly this message, and passes the digest check if it is a data frame. */
  ghost predicate Carries(item: Item, m: Message) {
    match m
    case DataMessage(typ, payload) =>
      item.Data? && item.payload == payload && Verified(item.header, item.payload)
      && TypeOf(item.header) == typ && HashOf(item.header) == FrameHash(typ, payload)
    case ReplyMessage(hash, correct) => item == Reply(hash, correct)
    case ConnectMessage => item == Connect
  }

  lemma DataFrameParts(typ: Word, payload: Payload)
    ensures DataFrame(typ, payload)[HEADER..] == payload
    ensures
      var h: Header := DataFrame(typ, payload)[..HEADER];
      && Flagged(h) && TypeOf(h) == typ && LengthOf(h) == |payload|
      && HashOf(h) == FrameHash(typ, payload) && Verified(h, payload)
  {
    hide Digest;
    HeaderFields(FrameHash(typ, payload), |payload|, typ);
    var h: Header := DataFrame(typ, payload)[..HEADER];
    assert h == FrameHash(typ, payload) + HeaderTail(|payload|, typ);
    assert h[16..] == HeaderTail(|payload|, typ);
  }

  /** A data frame comes back, with its digest verified, exactly when its type is not one of the
      three the receive loop consumes itself. */
  lemma DataFrameComesBackIff(typ: Word, payload: Payload)
    ensures
      (exists item :: Parse(DataFrame(typ, payload)) == Parsed([item], []) && Carries(item, DataMessage(typ, payload)))
      <==> typ > MSG_CONNECT
  {
    hide Digest;
    var frame := DataFrame(typ, payload);
    DataFrameParts(typ, payload);
    if typ > MSG_CONNECT {
      assert frame[HEADER..HEADER + |payload|] == payload && frame[HEADER + |payload|..] == [];
      ParseStep(frame);
      var item := Data(frame[..HEADER], payload);
      assert Parse([]) == Parsed([], []);
      assert Parse(frame) == Parsed([item], []) && Carries(item, DataMessage(typ, payload));
    } else {
      ParseStep(frame);
      assert !Parse(frame).items[0].Data?;
    }
  }

  lemma MessageComesBack(m: Message)
    requires m.DataMessage? ==> m.typ > MSG_CONNECT
    ensures |Parse(Bytes(m)).items| == 1 && Parse(Bytes(m)).rest == []
    ensures Carries(Parse(Bytes(m)).items[0], m)
  {
    hide Digest;
    assert Parse([]) == Parsed([], []);
    match m
    case DataMessage(typ, payload) =>
      DataFrameComesBackIff(typ, payload);
    case ReplyMessage(hash, correct) =>
      HeaderFields(hash, 0, if correct then MSG_DATA_CORRECT else MSG_DATA_ERROR);
      assert Bytes(m)[..HEADER] == Bytes(m) && Bytes(m)[HEADER..] == [];
    case ConnectMessage =>
      DataFrameParts(MSG_CONNECT, []);
      assert Bytes(m)[..HEADER] == Bytes(m) && Bytes(m)[HEADER..] == [];
  }

  /** Any list of frames, replies and connect messages is parsed back message by message. */
  lemma {:induction false} StreamComesBack(messages: seq<Message>)
    requires forall m <- messages :: m.DataMessage? ==> m.typ > MSG_CONNECT
    ensures Parse(Stream(messages)).rest == []
    ensures |Parse(Stream(messages)).items| == |messages|
    ensures forall i | 0 <= i < |messages| :: Carries(Parse(Stream(messages)).items[i], messages[i])
  {
    hide Digest, Carries, Bytes;
    if messages != [] {
      MessageComesBack(messages[0]);
      StreamComesBack(messages[1..]);
      ParseResumes(Bytes(messages[0]), Stream(messages[1..]));
      assert [] + Stream(messages[1..]) == Stream(messages[1..]);
    }
  }

  // ---- Noise ----

  function Significant(items: seq<Item>): seq<Item> {
    if items == [] then []
    else (if items[0].Noise? then [] else [items[0]]) + Significant(items[1..])
  }

  lemma {:induction false} SignificantConcat(a: seq<Item>, b: seq<Item>)
    ensures Significant(a + b) == Significant(a) + Significant(b)
  {
    if a == [] {
      assert a + b == b;
    } else {
      assert (a + b)[1..] == a[1..] + b;
      SignificantConcat(a[1..], b);
    }
  }

  /** Blocks of 32 bytes without the application flag. */
  ghost predicate NoiseBlocks(bytes: seq<Byte>)
    decreases |bytes|
  {
    bytes == [] || (|bytes| >= HEADER && !Flagged(bytes[..HEADER]) && NoiseBlocks(bytes[HEADER..]))
  }

  lemma {:induction false} NoiseParses(noise: seq<Byte>)
    requires NoiseBlocks(noise)
    ensures Significant(Parse(noise).items) == [] && Parse(noise).rest == []
    decreases |noise|
  {
    if noise != [] {
      NoiseParses(noise[HEADER..]);
      var h: Header := noise[..HEADER];
      assert Parse(noise).items[1..] == Parse(noise[HEADER..]).items;
    }
  }

  /** A stream cut at frame boundaries, each piece preceded by some noise. */
  datatype Piece = Piece(noise: seq<Byte>, clean: seq<Byte>)

  function Noisy(pieces: seq<Piece>): seq<Byte> {
    if pieces == [] then [] else pieces[0].noise + (pieces[0].clean + Noisy(pieces[1..]))
  }

  function Clean(pieces: seq<Piece>): seq<Byte> {
    if pieces == [] then [] else pieces[0].clean + Clean(pieces[1..])
  }

  ghost predicate CutAtBoundaries(pieces: seq<Piece>) {
    && (forall p <- pieces :: NoiseBlocks(p.noise))
    && (forall i | 0 <= i < |pieces| - 1 :: Parse(pieces[i].clean).rest == [])
  }

  /** Noise at frame boundaries, however much and wherever, changes neither the other items nor
      what is left over. */
  lemma {:induction false} NoiseIsTransparent(pieces: seq<Piece>)
    requires CutAtBoundaries(pieces)
    ensures Significant(Parse(Noisy(pieces)).items) == Significant(Parse(Clean(pieces)).items)
    ensures Parse(Noisy(pieces)).rest == Parse(Clean(pieces)).rest
  {
    if pieces != [] {
      var p, others := pieces[0], pieces[1..];
      NoiseParses(p.noise);
      ParseResumes(p.noise, p.clean + Noisy(others));
      assert [] + (p.clean + Noisy(others)) == p.clean + Noisy(others);
      SignificantConcat(Parse(p.noise).items, Parse(p.clean + Noisy(others)).items);
      if others == [] {
        assert p.clean + [] == p.clean;
      } else {
        ParseResumes(p.clean, Noisy(others));
        ParseResumes(p.clean, Clean(others));
        assert [] + Noisy(others) == Noisy(others) && [] + Clean(others) == Clean(others);
        SignificantConcat(Parse(p.clean).items, Parse(Noisy(others)).items);
        SignificantConcat(Parse(p.clean).items, Parse(Clean(others)).items);
        NoiseIsTransparent(others);
      }
    }
  }
}
