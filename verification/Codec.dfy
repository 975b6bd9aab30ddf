/**
 The length-prefixed, checksummed frames of muduo/net/protobuf/ProtobufCodecLite.cc. Payloads are
 opaque bytes; Adler-32 is defined as in section 2.2 of RFC 1950.
 */
module Codec {
  import opened Bytes
  import opened GapBuffer

  const HEADER_LEN: nat := 4
  const CHECKSUM_LEN: nat := 4
  const MAX_MESSAGE_LEN: nat := 64 * 1024 * 1024
  const ADLER_BASE: nat := 65521

  // ---- Adler-32 ----

  /** The two running sums after s. */
  function Sums(s: bytes): (r: (nat, nat))
    ensures r.0 < ADLER_BASE && r.1 < ADLER_BASE
  {
    if s == [] then (1, 0)
    else
      var (a, b) := Sums(s[..|s| - 1]);
      var a' := (a + s[|s| - 1]) % ADLER_BASE;
      (a', (b + a') % ADLER_BASE)
  }

  /** adler32 cast to int32_t. */
  function Checksum(s: bytes): (x: int)
    ensures Fits(x, 4)
  {
    Widths();
    var u := Sums(s).1 * 65536 + Sums(s).0;
    if u >= 0x8000_0000 then u - 0x1_0000_0000 else u
  }

  function Total(s: bytes): nat {
    if s == [] then 0 else Total(s[..|s| - 1]) + s[|s| - 1]
  }

  lemma {:induction false} FirstSum(s: bytes)
    ensures Sums(s).0 == (1 + Total(s)) % ADLER_BASE
  {
    if s != [] {
      FirstSum(s[..|s| - 1]);
      ModAdd(1 + Total(s[..|s| - 1]), s[|s| - 1]);
    }
  }

  /** Each byte times its distance from the end. */
  function Weighted(s: bytes): nat {
    if s == [] then 0 else |s| * s[0] + Weighted(s[1..])
  }

  lemma {:induction false} TotalFromFront(s: bytes)
    requires s != []
    ensures Total(s) == s[0] + Total(s[1..])
  {
    if |s| > 1 {
      TotalFromFront(s[..|s| - 1]);
      assert s[..|s| - 1][1..] == s[1..][..|s| - 2];
    }
  }

  /** One more byte behind: every byte counts once more. */
  lemma {:induction false} WeightedGrows(s: bytes)
    requires s != []
    ensures Weighted(s) == Weighted(s[..|s| - 1]) + Total(s)
  {
    TotalFromFront(s);
    if |s| > 1 {
      WeightedGrows(s[1..]);
      assert s[..|s| - 1][1..] == s[1..][..|s| - 2];
      assert |s| * s[0] == (|s| - 1) * s[0] + s[0];
    }
  }

  /** The second sum in closed form. */
  lemma {:induction false} SecondSum(s: bytes)
    ensures Sums(s).1 == (|s| + Weighted(s)) % 65521
  {
    if s != [] {
      var init := s[..|s| - 1];
      SecondSum(init);
      FirstSum(s);
      WeightedGrows(s);
      ModAddBoth(|init| + Weighted(init), 1 + Total(s));
    }
  }

  lemma ModAddBoth(t: nat, x: nat)
    ensures (t % ADLER_BASE + x % ADLER_BASE) % ADLER_BASE == (t + x) % ADLER_BASE
  {
    ModAdd(x, t % ADLER_BASE);
    ModAdd(t, x);
  }

  lemma ModAdd(t: nat, x: nat)
    ensures (t % ADLER_BASE + x) % ADLER_BASE == (t + x) % ADLER_BASE
  {
    var r := t % ADLER_BASE + x;
    assert t + x == ADLER_BASE * (t / ADLER_BASE + r / ADLER_BASE) + r % ADLER_BASE;
  }

  lemma {:induction false} TotalWithByte(s: bytes, k: nat, x: byte)
    requires k < |s|
    ensures Total(s[k := x]) == Total(s) - s[k] + x
  {
    if k < |s| - 1 {
      assert s[k := x][..|s| - 1] == s[..|s| - 1][k := x];
      TotalWithByte(s[..|s| - 1], k, x);
    } else {
      assert s[k := x][..|s| - 1] == s[..|s| - 1];
    }
  }

  /** One changed byte always changes the checksum. */
  lemma ChecksumSeesOneByte(s: bytes, k: nat, x: byte)
    requires k < |s| && x != s[k]
    ensures Checksum(s[k := x]) != Checksum(s)
  {
    FirstSum(s);
    FirstSum(s[k := x]);
    TotalWithByte(s, k, x);
    SmallShiftSeen(1 + Total(s), x - s[k]);
    SumsSeen(s, s[k := x]);
  }

  lemma SumsSeen(s: bytes, s': bytes)
    requires Sums(s).0 != Sums(s').0
    ensures Checksum(s) != Checksum(s')
  {
    PairsDiffer(Sums(s).0, Sums(s).1, Sums(s').0, Sums(s').1);
  }

  lemma PairsDiffer(a: nat, b: nat, a': nat, b': nat)
    requires a < ADLER_BASE && a' < ADLER_BASE && a != a'
    ensures b * 65536 + a != b' * 65536 + a'
  {
  }

  lemma SmallShiftSeen(t: int, d: int)
    requires d != 0 && -256 < d < 256
    ensures (t + d) % ADLER_BASE != t % ADLER_BASE
  {
  }

  // ---- frames ----

  /** What the codec was built with: its tag, whether a payload parses, and whether the raw callback lets a frame through. */
  datatype Codec = Codec(tag: bytes, parses: bytes -> bool, lets: bytes -> bool)

  function MinMessageLen(c: Codec): nat {
    |c.tag| + CHECKSUM_LEN
  }

  /** The part the length counts: tag, payload, checksum. */
  function Body(tag: bytes, payload: bytes): bytes {
    tag + payload + EncodeInt(Checksum(tag + payload), 4)
  }

  predicate Encodable(tag: bytes, payload: bytes) {
    Fits(|tag| + |payload| + CHECKSUM_LEN, 4)
  }

  function Frame(tag: bytes, payload: bytes): bytes
    requires Encodable(tag, payload)
  {
    EncodeInt(|Body(tag, payload)|, 4) + Body(tag, payload)
  }

  method FillEmptyBuffer(tag: bytes, payload: bytes, buf: Buffer)
    requires buf.Valid() && buf.Contents() == [] && buf.PrependableBytes() >= HEADER_LEN && Encodable(tag, payload)
    modifies buf, buf.data
    ensures buf.Valid() && buf.Contents() == Frame(tag, payload)
  {
    buf.Append(tag);
    buf.Append(payload);
    assert buf.Contents() == tag + payload;
    var checkSum := Checksum(buf.Contents());
    buf.AppendInt(checkSum, 4);
    assert buf.Contents() == Body(tag, payload);
    var len := buf.ReadableBytes();
    buf.PrependInt(len, 4);
  }

  datatype Error = InvalidLength | CheckSumError | UnknownMessageType | ParseError
  datatype Parsed = Ok(payload: bytes) | Failed(error: Error)

  predicate ValidChecksum(body: bytes)
    requires |body| >= CHECKSUM_LEN
  {
    DecodeInt(body[|body| - CHECKSUM_LEN..]) == Checksum(body[..|body| - CHECKSUM_LEN])
  }

  function Parse(c: Codec, body: bytes): Parsed
    requires |body| >= MinMessageLen(c)
  {
    if !ValidChecksum(body) then Failed(CheckSumError)
    else if body[..|c.tag|] != c.tag then Failed(UnknownMessageType)
    else
      var data := body[|c.tag|..|body| - CHECKSUM_LEN];
      if c.parses(data) then Ok(data) else Failed(ParseError)
  }

  /** What one round of onMessage's loop decides on the readable bytes. */
  datatype Verdict = Wait | Bad(error: Error) | Deliver(payload: bytes, used: nat) | Skip(used: nat)

  function Judge(c: Codec, buf: bytes): (v: Verdict)
    ensures v.Deliver? || v.Skip? ==> HEADER_LEN < v.used <= |buf|
  {
    if |buf| < MinMessageLen(c) + HEADER_LEN then Wait
    else
      var len := DecodeInt(buf[..HEADER_LEN]);
      if len > MAX_MESSAGE_LEN || len < MinMessageLen(c) then Bad(InvalidLength)
      else if |buf| < HEADER_LEN + len then Wait
      else if !c.lets(buf[..HEADER_LEN + len]) then Skip(HEADER_LEN + len)
      else
        match Parse(c, buf[HEADER_LEN..HEADER_LEN + len])
        case Ok(payload) => Deliver(payload, HEADER_LEN + len)
        case Failed(error) => Bad(error)
  }

  datatype Outcome = Outcome(delivered: seq<bytes>, rest: bytes, error: Option<Error>)

  /** onMessage: messages delivered, bytes left in the buffer, and the error reported, by a callback that takes nothing out. */
  function Decode(c: Codec, buf: bytes): Outcome
    decreases |buf|
  {
    match Judge(c, buf)
    case Wait => Outcome([], buf, None)
    case Bad(error) => Outcome([], buf, Some(error))
    case Skip(used) => Decode(c, buf[used..])
    case Deliver(payload, used) =>
      var o := Decode(c, buf[used..]);
      o.(delivered := [payload] + o.delivered)
  }

  /** What has been delivered, and what decoding the rest gives, make up the whole. */
  predicate Continues(whole: Outcome, delivered: seq<bytes>, next: Outcome) {
    whole.delivered == delivered + next.delivered && whole.rest == next.rest && whole.error == next.error
  }

  lemma RoundContinues(c: Codec, whole: Outcome, delivered: seq<bytes>, buf: bytes)
    requires Continues(whole, delivered, Decode(c, buf))
    ensures Judge(c, buf).Wait? ==> whole == Outcome(delivered, buf, None)
    ensures Judge(c, buf).Bad? ==> whole == Outcome(delivered, buf, Some(Judge(c, buf).error))
    ensures Judge(c, buf).Skip? ==> Continues(whole, delivered, Decode(c, buf[Judge(c, buf).used..]))
    ensures Judge(c, buf).Deliver? ==>
              Continues(whole, delivered + [Judge(c, buf).payload], Decode(c, buf[Judge(c, buf).used..]))
  {
    assert delivered + [] == delivered;
  }

  method OnMessage(c: Codec, buf: Buffer) returns (delivered: seq<bytes>, error: Option<Error>)
    requires buf.Valid()
    modifies buf
    ensures buf.Valid() && buf.data == old(buf.data)
    ensures Outcome(delivered, buf.Contents(), error) == Decode(c, old(buf.Contents()))
  {
    ghost var whole := Decode(c, buf.Contents());
    delivered, error := [], None;
    while buf.ReadableBytes() >= MinMessageLen(c) + HEADER_LEN
      invariant buf.Valid() && buf.data == old(buf.data)
      invariant Continues(whole, delivered, Decode(c, buf.Contents()))
      decreases buf.ReadableBytes()
    {
      RoundContinues(c, whole, delivered, buf.Contents());
      var verdict := HandleFrame(c, buf);
      if verdict.Deliver? {
        delivered := delivered + [verdict.payload];
      } else if verdict.Bad? {
        return delivered, Some(verdict.error);
      } else if verdict.Wait? {
        return delivered, None;
      }
    }
    RoundContinues(c, whole, delivered, buf.Contents());
  }

  /** One round of the loop: a whole frame is taken out of the buffer, unless it is bad. */
  method HandleFrame(c: Codec, buf: Buffer) returns (verdict: Verdict)
    requires buf.Valid() && buf.ReadableBytes() >= MinMessageLen(c) + HEADER_LEN
    modifies buf
    ensures buf.Valid() && buf.data == old(buf.data) && verdict == Judge(c, old(buf.Contents()))
    ensures buf.Contents() ==
              if verdict.Deliver? || verdict.Skip? then old(buf.Contents())[verdict.used..] else old(buf.Contents())
  {
    var contents := buf.Contents();
    var len := DecodeInt(contents[..HEADER_LEN]);
    if len > MAX_MESSAGE_LEN || len < MinMessageLen(c) {
      return Bad(InvalidLength);
    } else if buf.ReadableBytes() >= HEADER_LEN + len {
      if !c.lets(contents[..HEADER_LEN + len]) {
        buf.Retrieve(HEADER_LEN + len);
        return Skip(HEADER_LEN + len);
      }
      var parsed := Parse(c, contents[HEADER_LEN..HEADER_LEN + len]);
      if parsed.Ok? {
        buf.Retrieve(HEADER_LEN + len);
        return Deliver(parsed.payload, HEADER_LEN + len);
      } else {
        return Bad(parsed.error);
      }
    } else {
      return Wait;
    }
  }

  // ---- feeding in chunks ----

  /** onMessage called after each chunk arrives. */
  function Feed(c: Codec, buf: bytes, chunks: seq<bytes>): Outcome
    decreases chunks
  {
    if chunks == [] then Outcome([], buf, None)
    else
      var o := Decode(c, buf + chunks[0]);
      var next := Feed(c, o.rest, chunks[1..]);
      Outcome(o.delivered + next.delivered, next.rest, if |chunks| == 1 then o.error else next.error)
  }

  /** A decision once taken does not depend on bytes that arrive later. */
  lemma JudgeStable(c: Codec, buf: bytes, more: bytes)
    requires Judge(c, buf) != Wait
    ensures Judge(c, buf + more) == Judge(c, buf)
  {
    assert (buf + more)[..HEADER_LEN] == buf[..HEADER_LEN];
    var len := DecodeInt(buf[..HEADER_LEN]);
    if MinMessageLen(c) <= len <= MAX_MESSAGE_LEN {
      assert (buf + more)[..HEADER_LEN + len] == buf[..HEADER_LEN + len];
      assert (buf + more)[HEADER_LEN..HEADER_LEN + len] == buf[HEADER_LEN..HEADER_LEN + len];
    }
  }

  function Following(v: Verdict, o: Outcome): Outcome {
    if v.Deliver? then o.(delivered := [v.payload] + o.delivered) else o
  }

  lemma DecodeOneFrame(c: Codec, buf: bytes, more: bytes)
    requires Judge(c, buf).Deliver? || Judge(c, buf).Skip?
    ensures var v := Judge(c, buf); Decode(c, buf + more) == Following(v, Decode(c, buf[v.used..] + more))
  {
    JudgeStable(c, buf, more);
    var v := Judge(c, buf);
    assert (buf + more)[v.used..] == buf[v.used..] + more;
  }

  /** o, then next: what a first and a second call of onMessage deliver between them. */
  function Then(o: Outcome, next: Outcome): Outcome {
    next.(delivered := o.delivered + next.delivered)
  }

  lemma FollowingThen(v: Verdict, o: Outcome, next: Outcome)
    ensures Following(v, Then(o, next)) == Then(Following(v, o), next)
  {
    if v.Deliver? {
      assert [v.payload] + (o.delivered + next.delivered) == [v.payload] + o.delivered + next.delivered;
    }
  }

  /** Decoding what was left together with what arrives next continues the decoding of the whole. */
  lemma {:induction false} DecodeContinues(c: Codec, buf: bytes, more: bytes)
    ensures Decode(c, buf + more) == Then(Decode(c, buf), Decode(c, Decode(c, buf).rest + more))
    decreases |buf|
  {
    var v := Judge(c, buf);
    if v.Deliver? || v.Skip? {
      var tail := buf[v.used..];
      DecodeOneFrame(c, buf, more);
      DecodeOneFrame(c, buf, []);
      assert buf + [] == buf && tail + [] == tail;
      DecodeContinues(c, tail, more);
      FollowingThen(v, Decode(c, tail), Decode(c, Decode(c, tail).rest + more));
    } else {
      var next := Decode(c, buf + more);
      assert [] + next.delivered == next.delivered;
    }
  }

  /** For every byte string and every cutting: the same messages and the same bytes left as when it comes whole. */
  lemma {:induction false} ChunksDoNotMatter(c: Codec, buf: bytes, chunks: seq<bytes>)
    requires chunks != []
    ensures Feed(c, buf, chunks) == Decode(c, buf + Flatten(chunks))
    decreases chunks
  {
    var o := Decode(c, buf + chunks[0]);
    if |chunks| == 1 {
      FlattenSingleton(chunks[0]);
      assert chunks == [chunks[0]];
      assert o.delivered + [] == o.delivered;
    } else {
      ChunksDoNotMatter(c, o.rest, chunks[1..]);
      DecodeContinues(c, buf + chunks[0], Flatten(chunks[1..]));
      assert buf + Flatten(chunks) == buf + chunks[0] + Flatten(chunks[1..]);
    }
  }

  // ---- round trip ----

  /** Within the length limit, and acceptable to the receiver's parser if the raw callback lets it through. */
  predicate Sendable(c: Codec, payload: bytes) {
    && |c.tag| + |payload| + CHECKSUM_LEN <= MAX_MESSAGE_LEN
    && (c.lets(FrameOf(c, payload)) ==> c.parses(payload))
  }

  function FrameOf(c: Codec, payload: bytes): bytes
    requires |c.tag| + |payload| + CHECKSUM_LEN <= MAX_MESSAGE_LEN
  {
    Widths();
    Frame(c.tag, payload)
  }

  predicate AllSendable(c: Codec, ms: seq<bytes>) {
    forall i :: 0 <= i < |ms| ==> Sendable(c, ms[i])
  }

  /** The byte stream of a list of messages. */
  function Wire(c: Codec, ms: seq<bytes>): bytes
    requires AllSendable(c, ms)
  {
    if ms == [] then [] else FrameOf(c, ms[0]) + Wire(c, ms[1..])
  }

  /** The messages that the raw callback lets through. */
  function LetThrough(c: Codec, ms: seq<bytes>): seq<bytes>
    requires AllSendable(c, ms)
  {
    if ms == [] then [] else (if c.lets(FrameOf(c, ms[0])) then [ms[0]] else []) + LetThrough(c, ms[1..])
  }

  /** A length that is right for what follows it makes the receiver parse exactly that. */
  lemma WholeFrameJudged(c: Codec, body: bytes, rest: bytes)
    requires MinMessageLen(c) <= |body| <= MAX_MESSAGE_LEN && Fits(|body|, 4)
    ensures var frame := EncodeInt(|body|, 4) + body;
            c.lets(frame) ==>
              Judge(c, frame + rest) ==
                match Parse(c, body) case Ok(p) => Deliver(p, |frame|) case Failed(e) => Bad(e)
    ensures var frame := EncodeInt(|body|, 4) + body; !c.lets(frame) ==> Judge(c, frame + rest) == Skip(|frame|)
  {
    var head := EncodeInt(|body|, 4);
    var buf := head + body + rest;
    DecodeEncodeInt(|body|, 4);
    assert buf[..HEADER_LEN] == head;
    assert buf[..HEADER_LEN + |body|] == head + body;
    assert buf[HEADER_LEN..HEADER_LEN + |body|] == body;
  }

  lemma BodyParsed(c: Codec, payload: bytes)
    requires c.parses(payload)
    ensures Parse(c, Body(c.tag, payload)) == Ok(payload)
  {
    var body, sum := Body(c.tag, payload), EncodeInt(Checksum(c.tag + payload), 4);
    assert body[|body| - 4..] == sum;
    assert body[..|body| - 4] == c.tag + payload;
    DecodeEncodeInt(Checksum(c.tag + payload), 4);
    assert body[..|c.tag|] == c.tag;
    assert body[|c.tag|..|body| - 4] == payload;
  }

  /** A frame of another tag is refused for that, and one whose payload does not parse for that. */
  lemma WrongTagRefused(c: Codec, tag: bytes, payload: bytes)
    requires |tag| == |c.tag| && tag != c.tag
    ensures Parse(c, Body(tag, payload)) == Failed(UnknownMessageType)
  {
    BodyParts(tag, payload);
  }

  lemma UnparsableRefused(c: Codec, payload: bytes)
    requires !c.parses(payload)
    ensures Parse(c, Body(c.tag, payload)) == Failed(ParseError)
  {
    BodyParts(c.tag, payload);
  }

  lemma BodyParts(tag: bytes, payload: bytes)
    ensures var body := Body(tag, payload);
            |body| >= |tag| + CHECKSUM_LEN && ValidChecksum(body) && body[..|tag|] == tag
            && body[|tag|..|body| - CHECKSUM_LEN] == payload
  {
    var body := Body(tag, payload);
    var sum := Checksum(tag + payload);
    assert body[..|body| - CHECKSUM_LEN] == tag + payload && body[|body| - CHECKSUM_LEN..] == EncodeInt(sum, 4);
    DecodeEncodeInt(sum, 4);
    assert body[|tag|..|body| - CHECKSUM_LEN] == (tag + payload)[|tag|..] == payload;
  }

  /** A length is refused exactly outside the tag with its checksum and 64 MiB. */
  lemma LengthLimitExact(c: Codec, len: int, rest: bytes)
    requires Fits(len, 4) && |rest| >= |c.tag| + 4
    ensures Judge(c, EncodeInt(len, 4) + rest) == Bad(InvalidLength) <==> len > 67108864 || len < |c.tag| + 4
  {
    var buf := EncodeInt(len, 4) + rest;
    assert buf[..HEADER_LEN] == EncodeInt(len, 4);
    DecodeEncodeInt(len, 4);
  }

  lemma FrameJudged(c: Codec, payload: bytes, rest: bytes)
    requires Sendable(c, payload)
    ensures var frame := FrameOf(c, payload);
            Judge(c, frame + rest) == if c.lets(frame) then Deliver(payload, |frame|) else Skip(|frame|)
  {
    Widths();
    if c.lets(FrameOf(c, payload)) {
      BodyParsed(c, payload);
    }
    WholeFrameJudged(c, Body(c.tag, payload), rest);
  }

  lemma {:induction false} WireDecoded(c: Codec, ms: seq<bytes>, rest: bytes)
    requires AllSendable(c, ms)
    ensures Decode(c, Wire(c, ms) + rest) == Then(Outcome(LetThrough(c, ms), [], None), Decode(c, rest))
    decreases ms
  {
    if ms == [] {
      assert Wire(c, ms) + rest == rest;
      assert [] + Decode(c, rest).delivered == Decode(c, rest).delivered;
    } else {
      var frame, tail := FrameOf(c, ms[0]), Wire(c, ms[1..]) + rest;
      assert Wire(c, ms) + rest == frame + tail;
      FrameJudged(c, ms[0], []);
      assert frame + [] == frame && frame[|frame|..] + tail == tail;
      DecodeOneFrame(c, frame, tail);
      WireDecoded(c, ms[1..], rest);
      FollowingThen(Judge(c, frame), Outcome(LetThrough(c, ms[1..]), [], None), Decode(c, rest));
      FirstLetThrough(c, ms, frame);
    }
  }

  lemma FirstLetThrough(c: Codec, ms: seq<bytes>, frame: bytes)
    requires AllSendable(c, ms) && ms != [] && frame == FrameOf(c, ms[0])
    requires Judge(c, frame) == if c.lets(frame) then Deliver(ms[0], |frame|) else Skip(|frame|)
    ensures Following(Judge(c, frame), Outcome(LetThrough(c, ms[1..]), [], None)) == Outcome(LetThrough(c, ms), [], None)
  {
    assert [] + LetThrough(c, ms[1..]) == LetThrough(c, ms[1..]);
  }

  /** Any list of messages within the limit, encoded and fed back in any chunks, is delivered exactly as let through. */
  lemma StreamRoundTrip(c: Codec, ms: seq<bytes>, chunks: seq<bytes>)
    requires AllSendable(c, ms) && chunks != [] && Flatten(chunks) == Wire(c, ms)
    ensures Feed(c, [], chunks) == Outcome(LetThrough(c, ms), [], None)
  {
    ChunksDoNotMatter(c, [], chunks);
    assert [] + Flatten(chunks) == Wire(c, ms) + [];
    WireDecoded(c, ms, []);
    assert LetThrough(c, ms) + [] == LetThrough(c, ms);
  }

  /** A codec with no raw callback lets everything through. */
  lemma {:induction false} AllLetThrough(c: Codec, ms: seq<bytes>)
    requires AllSendable(c, ms) && forall i :: 0 <= i < |ms| ==> c.lets(FrameOf(c, ms[i]))
    ensures LetThrough(c, ms) == ms
  {
    if ms != [] {
      AllLetThrough(c, ms[1..]);
      assert ms == [ms[0]] + ms[1..];
    }
  }

  // ---- one byte changed ----

  /** Any one byte of tag, payload or checksum changed: the checksum no longer fits. */
  lemma CorruptBodyRefused(c: Codec, payload: bytes, k: nat, x: byte)
    requires k < |Body(c.tag, payload)| && x != Body(c.tag, payload)[k]
    ensures Parse(c, Body(c.tag, payload)[k := x]) == Failed(CheckSumError)
  {
    var text := c.tag + payload;
    var body := text + EncodeInt(Checksum(text), 4);
    var n := |text|;
    DecodeEncodeInt(Checksum(text), 4);
    if k < n {
      assert body[k := x][..n] == text[k := x];
      assert body[k := x][n..] == EncodeInt(Checksum(text), 4);
      ChecksumSeesOneByte(text, k, x);
    } else {
      var sum := EncodeInt(Checksum(text), 4);
      assert body[k := x][..n] == text;
      assert body[k := x][n..] == sum[k - n := x];
      EncodeDecodeInt(sum[k - n := x]);
      assert sum[k - n := x][k - n] != sum[k - n];
    }
  }

  function CorruptFrame(c: Codec, payload: bytes, i: nat, x: byte): bytes
    requires Sendable(c, payload) && HEADER_LEN <= i < |FrameOf(c, payload)|
  {
    FrameOf(c, payload)[i := x]
  }

  lemma CorruptFrameJudged(c: Codec, payload: bytes, i: nat, x: byte, rest: bytes)
    requires Sendable(c, payload) && HEADER_LEN <= i < |FrameOf(c, payload)| && x != FrameOf(c, payload)[i]
    requires c.lets(CorruptFrame(c, payload, i, x))
    ensures Judge(c, CorruptFrame(c, payload, i, x) + rest) == Bad(CheckSumError)
  {
    Widths();
    var body := Body(c.tag, payload);
    assert CorruptFrame(c, payload, i, x) == EncodeInt(|body|, 4) + body[i - 4 := x];
    CorruptBodyRefused(c, payload, i - 4, x);
    WholeFrameJudged(c, body[i - 4 := x], rest);
  }

  /** With one such byte changed in a stream, exactly the frames before it are delivered, however it is cut. */
  lemma CorruptionStopsThere(c: Codec, before: seq<bytes>, payload: bytes, i: nat, x: byte, after: bytes, chunks: seq<bytes>)
    requires AllSendable(c, before) && Sendable(c, payload)
    requires HEADER_LEN <= i < |FrameOf(c, payload)| && x != FrameOf(c, payload)[i]
    requires c.lets(CorruptFrame(c, payload, i, x))
    requires chunks != [] && Flatten(chunks) == Wire(c, before) + (CorruptFrame(c, payload, i, x) + after)
    ensures Feed(c, [], chunks) == Outcome(LetThrough(c, before), CorruptFrame(c, payload, i, x) + after, Some(CheckSumError))
  {
    ChunksDoNotMatter(c, [], chunks);
    assert [] + Flatten(chunks) == Flatten(chunks);
    WireDecoded(c, before, CorruptFrame(c, payload, i, x) + after);
    CorruptFrameJudged(c, payload, i, x, after);
    assert LetThrough(c, before) + [] == LetThrough(c, before);
  }
}
