/**
 The zone-file reader of muduo/base/TimeZone.cc, for the TZif format (section 3 of RFC 8536).
 A reader takes the bytes still ahead of the file cursor and returns what it read with the
 bytes left ahead; exceptions and refusals are None.
 */
module ZoneFile {
  import opened Bytes
  import opened Zones

  datatype Counts = Counts(isut: int, isstd: int, leap: int, time: int, typ: int, chars: int)
  datatype Block = Block(zone: Zone, abbreviation: bytes, indicators: nat)
  datatype Data = Data(zone: Zone, abbreviation: bytes, tzstring: bytes)

  // ---- reading from the cursor ----

  /** fread of n bytes; a short read throws. */
  function Take(s: bytes, n: int): Option<(bytes, bytes)> {
    if 0 <= n <= |s| then Some((s[..n], s[n..])) else None
  }

  /** fseek forward: past the end nothing is left to read. */
  function Drop(s: bytes, n: nat): bytes {
    if n <= |s| then s[n..] else []
  }

  function IntFrom(s: bytes, width: nat): Option<(int, bytes)> {
    var (v, rest) :- Take(s, width);
    Some((DecodeInt(v), rest))
  }

  function CountsFrom(s: bytes): Option<(Counts, bytes)> {
    var (isut, s1) :- IntFrom(s, 4);
    var (isstd, s2) :- IntFrom(s1, 4);
    var (leap, s3) :- IntFrom(s2, 4);
    var (time, s4) :- IntFrom(s3, 4);
    var (typ, s5) :- IntFrom(s4, 4);
    var (chars, s6) :- IntFrom(s5, 4);
    Some((Counts(isut, isstd, leap, time, typ, chars), s6))
  }

  function IntsFrom(s: bytes, n: nat, width: nat): (r: Option<(seq<int>, bytes)>)
    ensures r.Some? ==> |r.value.0| == n
    decreases n
  {
    if n == 0 then Some(([], s))
    else
      var (first, s1) :- IntFrom(s, width);
      var (others, rest) :- IntsFrom(s1, n - 1, width);
      Some(([first] + others, rest))
  }

  function TypeFrom(s: bytes): Option<(LocalTime, bytes)> {
    var (gmtoff, s1) :- IntFrom(s, 4);
    var (isdst, s2) :- Take(s1, 1);
    var (abbrind, s3) :- Take(s2, 1);
    Some((LocalTime(gmtoff, isdst[0] != 0, abbrind[0]), s3))
  }

  function TypesFrom(s: bytes, n: nat): Option<(seq<LocalTime>, bytes)>
    decreases n
  {
    if n == 0 then Some(([], s))
    else
      var (first, s1) :- TypeFrom(s);
      var (others, rest) :- TypesFrom(s1, n - 1);
      Some(([first] + others, rest))
  }

  /** addTransition for each pair; vector::at throws on a type that does not exist. */
  function Transitions(times: seq<int>, indices: bytes, types: seq<LocalTime>): Option<seq<Transition>>
    requires |times| == |indices|
  {
    if times == [] then Some([])
    else if indices[0] >= |types| then None
    else
      var rest :- Transitions(times[1..], indices[1..], types);
      Some([Transition(times[0], times[0] + types[indices[0]].utcOffset, indices[0])] + rest)
  }

  /** The counts readDataBlock goes on with; a negative size makes vector::reserve throw. */
  predicate Accepted(c: Counts) {
    && c.leap == 0 && (c.isut == 0 || c.isut == c.typ) && (c.isstd == 0 || c.isstd == c.typ)
    && c.time >= 0 && c.typ >= 0
  }

  /** readDataBlock, up to the end of the designation bytes. */
  function BlockFrom(s: bytes, v1: bool): Option<(Block, bytes)> {
    var (c, s1) :- CountsFrom(s);
    if !Accepted(c) then None else BodyFrom(c, s1, v1)
  }

  function BodyFrom(c: Counts, s: bytes, v1: bool): Option<(Block, bytes)>
    requires Accepted(c)
  {
    var (times, s1) :- IntsFrom(s, c.time, if v1 then 4 else 8);
    TableFrom(c, times, s1)
  }

  function TableFrom(c: Counts, times: seq<int>, s: bytes): Option<(Block, bytes)>
    requires Accepted(c) && |times| == c.time
  {
    var (indices, s1) :- Take(s, c.time);
    var (types, s2) :- TypesFrom(s1, c.typ);
    NamesFrom(c, times, indices, types, s2)
  }

  function NamesFrom(c: Counts, times: seq<int>, indices: bytes, types: seq<LocalTime>, s: bytes): Option<(Block, bytes)>
    requires Accepted(c) && |times| == |indices|
  {
    var transitions :- Transitions(times, indices, types);
    var (abbreviation, rest) :- Take(s, c.chars);
    Some((Block(Zone(transitions, types), abbreviation, c.isstd + c.isut), rest))
  }

  /** The rest of readDataBlock: skip the indicators, and keep the text after them in a version-2 file. */
  function Finished(block: Option<(Block, bytes)>, v1: bool): Option<Data> {
    var (b, rest) :- block;
    Some(Data(b.zone, b.abbreviation, if v1 then [] else Drop(rest, b.indicators)))
  }

  const MAGIC: bytes := Ascii("TZif")

  function V1Size(c: Counts): int {
    4 * c.time + c.time + 6 * c.typ + c.chars + 8 * c.leap + c.isstd + c.isut
  }

  /** The cursor after seeking n bytes on from offset 44; a target before the file start fails and leaves it. */
  function SkipV1(b: bytes, n: int): bytes {
    Drop(b, if 44 + n >= 0 then 44 + n else 44)
  }

  /** The first header: its version and the counts, at offset 44 if there is one. */
  function HeaderFrom(b: bytes): Option<((bytes, Counts), bytes)> {
    var (head, s1) :- Take(b, 4);
    if head != MAGIC then None else
    var (version, s2) :- Take(s1, 1);
    var (reserved, s3) :- Take(s2, 15);
    var (c, s4) :- CountsFrom(s3);
    Some(((version, c), s4))
  }

  /** readTimeZoneFile on the whole contents of a file. */
  function ReadZone(b: bytes): Option<Data> {
    var ((version, c), rest) :- HeaderFrom(b);
    if version == Ascii("2") then ReadSecond(SkipV1(b, V1Size(c)))
    else Finished(BlockFrom(Drop(b, 20), true), true)
  }

  /** The second header and data block of a version-2 file. */
  function ReadSecond(s: bytes): Option<Data> {
    var (head, s1) :- Take(s, 4);
    if head != MAGIC then None else
    Finished(BlockFrom(Drop(s1, 16), false), false)
  }

  // ---- the reader itself, moving a cursor ----

  /** A method answered r and left `ahead`, as the reader says; after a failure the cursor does not matter. */
  ghost predicate Reads<T>(spec: Option<(T, bytes)>, r: Option<T>, ahead: bytes) {
    if spec.Some? then r == Some(spec.value.0) && ahead == spec.value.1 else r == None
  }

  class File {
    const contents: bytes
    var pos: nat

    constructor (contents: bytes)
      ensures this.contents == contents && Ahead() == contents && pos == 0
    {
      this.contents := contents;
      pos := 0;
    }

    function Ahead(): bytes
      reads this
    {
      Drop(contents, pos)
    }

    method ReadBytes(n: int) returns (r: Option<bytes>)
      modifies this
      ensures Reads(Take(old(Ahead()), n), r, Ahead())
      ensures r.Some? ==> pos == old(pos) + n
    {
      if n == 0 {
        return Some([]);
      }
      if n < 0 || |contents| < pos + n {
        return None;
      }
      r := Some(contents[pos..pos + n]);
      assert r.value == Ahead()[..n];
      pos := pos + n;
    }

    method ReadInt(width: nat) returns (r: Option<int>)
      modifies this
      ensures Reads(IntFrom(old(Ahead()), width), r, Ahead())
      ensures r.Some? ==> pos == old(pos) + width
    {
      var v :- ReadBytes(width);
      r := Some(DecodeInt(v));
    }

    method Skip(offset: int)
      modifies this
      ensures pos == if old(pos) + offset >= 0 then old(pos) + offset else old(pos)
      ensures offset >= 0 ==> Ahead() == Drop(old(Ahead()), offset)
    {
      if pos + offset >= 0 {
        pos := pos + offset;
      }
    }
  }

  method ReadCounts(f: File) returns (r: Option<Counts>)
    modifies f
    ensures Reads(CountsFrom(old(f.Ahead())), r, f.Ahead())
    ensures r.Some? ==> f.pos == old(f.pos) + 24
  {
    var isutccnt :- f.ReadInt(4);
    var isstdcnt :- f.ReadInt(4);
    var leapcnt :- f.ReadInt(4);
    var timecnt :- f.ReadInt(4);
    var typecnt :- f.ReadInt(4);
    var charcnt :- f.ReadInt(4);
    r := Some(Counts(isutccnt, isstdcnt, leapcnt, timecnt, typecnt, charcnt));
  }

  method ReadTimes(f: File, timecnt: nat, width: nat) returns (r: Option<seq<int>>)
    modifies f
    ensures Reads(IntsFrom(old(f.Ahead()), timecnt, width), r, f.Ahead())
  {
    var trans: seq<int> := [];
    for i := 0 to timecnt
      invariant Resumes(IntsFrom(old(f.Ahead()), timecnt, width), trans, IntsFrom(f.Ahead(), timecnt - i, width))
    {
      var t :- f.ReadInt(width);
      trans := trans + [t];
    }
    assert trans + [] == trans;
    r := Some(trans);
  }

  /** A loop that has collected `got` and would go on as `next` does what the whole reader does. */
  ghost predicate Resumes<T>(whole: Option<(seq<T>, bytes)>, got: seq<T>, next: Option<(seq<T>, bytes)>) {
    && (whole.Some? <==> next.Some?)
    && (next.Some? ==> whole.value.0 == got + next.value.0 && whole.value.1 == next.value.1)
  }

  method ReadType(f: File) returns (r: Option<LocalTime>)
    modifies f
    ensures Reads(TypeFrom(old(f.Ahead())), r, f.Ahead())
  {
    var gmtoff :- f.ReadInt(4);
    var isdst :- f.ReadBytes(1);
    var abbrind :- f.ReadBytes(1);
    r := Some(LocalTime(gmtoff, isdst[0] != 0, abbrind[0]));
  }

  method ReadTypes(f: File, typecnt: nat) returns (r: Option<seq<LocalTime>>)
    modifies f
    ensures Reads(TypesFrom(old(f.Ahead()), typecnt), r, f.Ahead())
  {
    var localtimes: seq<LocalTime> := [];
    for i := 0 to typecnt
      invariant Resumes(TypesFrom(old(f.Ahead()), typecnt), localtimes, TypesFrom(f.Ahead(), typecnt - i))
    {
      var localtime :- ReadType(f);
      localtimes := localtimes + [localtime];
    }
    assert localtimes + [] == localtimes;
    r := Some(localtimes);
  }

  method AddTransitions(times: seq<int>, indices: bytes, types: seq<LocalTime>) returns (r: Option<seq<Transition>>)
    requires |times| == |indices|
    ensures r == Transitions(times, indices, types)
  {
    var transitions: seq<Transition> := [];
    for i := 0 to |times|
      invariant var whole, next := Transitions(times, indices, types), Transitions(times[i..], indices[i..], types);
                (whole.Some? <==> next.Some?) && (next.Some? ==> whole.value == transitions + next.value)
    {
      if indices[i] >= |types| {
        return None;
      }
      transitions := transitions + [Transition(times[i], times[i] + types[indices[i]].utcOffset, indices[i])];
      assert times[i..][1..] == times[i + 1..] && indices[i..][1..] == indices[i + 1..];
    }
    assert transitions + [] == transitions;
    r := Some(transitions);
  }

  method ReadTable(f: File, c: Counts, trans: seq<int>) returns (r: Option<Block>)
    requires Accepted(c) && |trans| == c.time
    modifies f
    ensures Reads(TableFrom(c, trans, old(f.Ahead())), r, f.Ahead())
  {
    ghost var s0 := f.Ahead();
    var localtimes :- f.ReadBytes(c.time);
    ghost var s1 := f.Ahead();
    assert Take(s0, c.time) == Some((localtimes, s1));
    var types :- ReadTypes(f, c.typ);
    ghost var s2 := f.Ahead();
    assert TypesFrom(s1, c.typ) == Some((types, s2));
    r := ReadNames(f, c, trans, localtimes, types);
  }

  method ReadNames(f: File, c: Counts, trans: seq<int>, localtimes: bytes, types: seq<LocalTime>) returns (r: Option<Block>)
    requires Accepted(c) && |trans| == |localtimes|
    modifies f
    ensures Reads(NamesFrom(c, trans, localtimes, types, old(f.Ahead())), r, f.Ahead())
  {
    var transitions :- AddTransitions(trans, localtimes, types);
    var abbreviation :- f.ReadBytes(c.chars);
    r := Some(Block(Zone(transitions, types), abbreviation, c.isstd + c.isut));
  }

  method ReadBody(f: File, c: Counts, v1: bool) returns (r: Option<Block>)
    requires Accepted(c)
    modifies f
    ensures Reads(BodyFrom(c, old(f.Ahead()), v1), r, f.Ahead())
  {
    var trans :- ReadTimes(f, c.time, if v1 then 4 else 8);
    r := ReadTable(f, c, trans);
  }

  method ReadBlock(f: File, v1: bool) returns (r: Option<Block>)
    modifies f
    ensures Reads(BlockFrom(old(f.Ahead()), v1), r, f.Ahead())
  {
    var c :- ReadCounts(f);
    if c.leap != 0 {
      return None;
    }
    if c.isut != 0 && c.isut != c.typ {
      return None;
    }
    if c.isstd != 0 && c.isstd != c.typ {
      return None;
    }
    if c.time < 0 || c.typ < 0 {
      return None;
    }
    r := ReadBody(f, c, v1);
  }

  /** readDataBlock: the block, then the indicators skipped and the footer text of a version-2 file. */
  method ReadDataBlock(f: File, v1: bool) returns (r: Option<Data>)
    modifies f
    ensures r == Finished(BlockFrom(old(f.Ahead()), v1), v1)
  {
    ghost var spec := BlockFrom(f.Ahead(), v1);
    var block :- ReadBlock(f, v1);
    f.Skip(block.indicators);
    r := Some(Data(block.zone, block.abbreviation, if v1 then [] else f.Ahead()));
  }

  method ReadSecondBlock(f: File) returns (r: Option<Data>)
    modifies f
    ensures r == ReadSecond(old(f.Ahead()))
  {
    var head :- f.ReadBytes(4);
    if head != MAGIC {
      return None;
    }
    f.Skip(16);
    r := ReadDataBlock(f, false);
  }

  method ReadHeader(f: File) returns (r: Option<(bytes, Counts)>)
    requires f.pos == 0
    modifies f
    ensures Reads(HeaderFrom(old(f.Ahead())), r, f.Ahead())
    ensures r.Some? ==> f.pos == 44
  {
    var head :- f.ReadBytes(4);
    if head != MAGIC {
      return None;
    }
    var version :- f.ReadBytes(1);
    var reserved :- f.ReadBytes(15);
    var c :- ReadCounts(f);
    r := Some((version, c));
  }

  method ReadTimeZoneFile(contents: bytes) returns (r: Option<Data>)
    ensures r == ReadZone(contents)
  {
    var f := new File(contents);
    var header :- ReadHeader(f);
    if header.0 == Ascii("2") {
      f.Skip(V1Size(header.1));
      assert f.Ahead() == SkipV1(contents, V1Size(header.1));
      r := ReadSecondBlock(f);
    } else {
      f.Skip(-24);
      assert f.Ahead() == Drop(contents, 20);
      r := ReadDataBlock(f, true);
    }
  }

  // ---- files, from what they describe (section 3 of RFC 8536) ----

  /** The tables of one data block. */
  datatype Table = Table(
    times: seq<int>, indices: bytes, types: seq<LocalTime>, designations: bytes,
    leaps: seq<(int, int)>, isstd: bytes, isut: bytes)

  predicate CountsFit(c: Counts) {
    && Fits(c.isut, 4) && Fits(c.isstd, 4) && Fits(c.leap, 4)
    && Fits(c.time, 4) && Fits(c.typ, 4) && Fits(c.chars, 4)
  }

  function CountsOf(d: Table): Counts {
    Counts(|d.isut|, |d.isstd|, |d.leaps|, |d.times|, |d.types|, |d.designations|)
  }

  predicate TimesFit(ts: seq<int>, width: nat) {
    ts == [] || (Fits(ts[0], width) && TimesFit(ts[1..], width))
  }

  predicate TypesFit(ts: seq<LocalTime>) {
    forall i :: 0 <= i < |ts| ==> Fits(ts[i].utcOffset, 4) && ts[i].desigIdx < 256
  }

  predicate LeapsFit(ls: seq<(int, int)>, width: nat) {
    forall i :: 0 <= i < |ls| ==> Fits(ls[i].0, width) && Fits(ls[i].1, 4)
  }

  /** 4-byte times in a version-1 block, 8-byte times in a version-2 block. */
  function Width(v1: bool): nat {
    if v1 then 4 else 8
  }

  predicate ValidTable(d: Table, v1: bool) {
    && CountsFit(CountsOf(d)) && |d.times| == |d.indices|
    && TimesFit(d.times, Width(v1)) && TypesFit(d.types) && LeapsFit(d.leaps, Width(v1))
    && (d.isstd == [] || |d.isstd| == |d.types|) && (d.isut == [] || |d.isut| == |d.types|)
  }

  predicate TypesExist(d: Table) {
    forall i :: 0 <= i < |d.indices| ==> d.indices[i] < |d.types|
  }

  function EncodeCounts(c: Counts): (s: bytes)
    requires CountsFit(c)
    ensures |s| == 24
  {
    EncodeInt(c.isut, 4) + (EncodeInt(c.isstd, 4) + (EncodeInt(c.leap, 4) +
    (EncodeInt(c.time, 4) + (EncodeInt(c.typ, 4) + EncodeInt(c.chars, 4)))))
  }

  function EncodeTimes(ts: seq<int>, width: nat): bytes
    requires TimesFit(ts, width)
  {
    if ts == [] then [] else EncodeInt(ts[0], width) + EncodeTimes(ts[1..], width)
  }

  function EncodeType(t: LocalTime): (s: bytes)
    requires Fits(t.utcOffset, 4) && t.desigIdx < 256
    ensures |s| == 6
  {
    EncodeInt(t.utcOffset, 4) + [if t.isDst then 1 else 0, t.desigIdx]
  }

  function EncodeTypes(ts: seq<LocalTime>): (s: bytes)
    requires TypesFit(ts)
    ensures |s| == 6 * |ts|
  {
    if ts == [] then [] else EncodeType(ts[0]) + EncodeTypes(ts[1..])
  }

  function EncodeLeaps(ls: seq<(int, int)>, width: nat): bytes
    requires LeapsFit(ls, width)
  {
    if ls == [] then [] else EncodeInt(ls[0].0, width) + EncodeInt(ls[0].1, 4) + EncodeLeaps(ls[1..], width)
  }

  /** A block after its counts, up to the end of its designations. */
  function BodyBytes(d: Table, v1: bool): bytes
    requires ValidTable(d, v1)
  {
    EncodeTimes(d.times, Width(v1)) + (d.indices + (EncodeTypes(d.types) + d.designations))
  }

  /** The rest of it: leap seconds and indicators. */
  function TrailerBytes(d: Table, v1: bool): bytes
    requires ValidTable(d, v1)
  {
    EncodeLeaps(d.leaps, Width(v1)) + d.isstd + d.isut
  }

  /** "TZif" and "2", as bytes. */
  const TZIF: bytes := [84, 90, 105, 102]
  const TWO: bytes := [50]

  lemma MagicIsTzif()
    ensures MAGIC == TZIF && Ascii("2") == TWO
  {
    assert |"TZif"| == 4;
    assert MAGIC == TZIF;
  }

  /** A version-2 file: both blocks, each with a header, and the footer. */
  datatype Source = Source(reserved: bytes, first: Table, header2: bytes, second: Table, footer: bytes)

  predicate ValidSource(f: Source) {
    |f.reserved| == 15 && |f.header2| == 16 && ValidTable(f.first, true) && ValidTable(f.second, false)
  }

  function Header(version: bytes, reserved: bytes, c: Counts): (s: bytes)
    requires |version| == 1 && |reserved| == 15 && CountsFit(c)
    ensures |s| == 44
  {
    TZIF + (version + (reserved + EncodeCounts(c)))
  }

  function FirstHeader(f: Source): (s: bytes)
    requires ValidSource(f)
    ensures |s| == 44
  {
    Header(TWO, f.reserved, CountsOf(f.first))
  }

  function FirstBlock(f: Source): bytes
    requires ValidSource(f)
  {
    BodyBytes(f.first, true) + TrailerBytes(f.first, true)
  }

  function SecondPart(f: Source): bytes
    requires ValidSource(f)
  {
    TZIF + (f.header2 + (EncodeCounts(CountsOf(f.second)) + BodyBytes(f.second, false)))
  }

  /** From the start to the end of the second block's designations. */
  function UpToDesignations(f: Source): bytes
    requires ValidSource(f)
  {
    FirstHeader(f) + FirstBlock(f) + SecondPart(f)
  }

  function FileBytes(f: Source): bytes
    requires ValidSource(f)
  {
    UpToDesignations(f) + (TrailerBytes(f.second, false) + f.footer)
  }

  /** The zone that a block describes. */
  function Described(d: Table): Zone
    requires |d.times| == |d.indices| && TypesExist(d)
  {
    Zone(seq(|d.times|, i requires 0 <= i < |d.times| =>
               Transition(d.times[i], d.times[i] + d.types[d.indices[i]].utcOffset, d.indices[i])),
         d.types)
  }

  // ---- reading back what was encoded ----

  lemma TakeEncoded(s: bytes, rest: bytes)
    ensures Take(s + rest, |s|) == Some((s, rest))
  {
    assert (s + rest)[..|s|] == s && (s + rest)[|s|..] == rest;
  }

  lemma IntEncoded(x: int, width: nat, rest: bytes)
    requires Fits(x, width)
    ensures IntFrom(EncodeInt(x, width) + rest, width) == Some((x, rest))
  {
    TakeEncoded(EncodeInt(x, width), rest);
    DecodeEncodeInt(x, width);
  }

  lemma Reassociate(a: bytes, b: bytes, c: bytes)
    ensures a + b + c == a + (b + c)
  {
  }

  lemma CountsEncoded(c: Counts, rest: bytes)
    requires CountsFit(c)
    ensures CountsFrom(EncodeCounts(c) + rest) == Some((c, rest))
  {
    var s5 := EncodeInt(c.chars, 4);
    var s4 := EncodeInt(c.typ, 4) + s5;
    var s3 := EncodeInt(c.time, 4) + s4;
    var s2 := EncodeInt(c.leap, 4) + s3;
    var s1 := EncodeInt(c.isstd, 4) + s2;
    Reassociate(EncodeInt(c.isut, 4), s1, rest);
    IntEncoded(c.isut, 4, s1 + rest);
    Reassociate(EncodeInt(c.isstd, 4), s2, rest);
    IntEncoded(c.isstd, 4, s2 + rest);
    Reassociate(EncodeInt(c.leap, 4), s3, rest);
    IntEncoded(c.leap, 4, s3 + rest);
    Reassociate(EncodeInt(c.time, 4), s4, rest);
    IntEncoded(c.time, 4, s4 + rest);
    Reassociate(EncodeInt(c.typ, 4), s5, rest);
    IntEncoded(c.typ, 4, s5 + rest);
    IntEncoded(c.chars, 4, rest);
  }

  lemma HeadAndTail<T>(s: seq<T>)
    requires s != []
    ensures s == [s[0]] + s[1..]
  {
  }

  lemma FirstIntRead(x: int, width: nat, tail: bytes, others: seq<int>, rest: bytes)
    requires Fits(x, width) && IntsFrom(tail, |others|, width) == Some((others, rest))
    ensures IntsFrom(EncodeInt(x, width) + tail, |others| + 1, width) == Some(([x] + others, rest))
  {
    IntEncoded(x, width, tail);
  }

  lemma {:induction false} TimesEncoded(ts: seq<int>, width: nat, rest: bytes)
    requires TimesFit(ts, width)
    ensures IntsFrom(EncodeTimes(ts, width) + rest, |ts|, width) == Some((ts, rest))
  {
    if ts == [] {
      assert EncodeTimes(ts, width) + rest == rest;
    } else {
      var others := ts[1..];
      TimesEncoded(others, width, rest);
      FirstIntRead(ts[0], width, EncodeTimes(others, width) + rest, others, rest);
      Reassociate(EncodeInt(ts[0], width), EncodeTimes(others, width), rest);
      HeadAndTail(ts);
    }
  }

  lemma TypeEncoded(t: LocalTime, rest: bytes)
    requires Fits(t.utcOffset, 4) && t.desigIdx < 256
    ensures TypeFrom(EncodeType(t) + rest) == Some((t, rest))
  {
    var dst, desig := [if t.isDst then 1 else 0], [t.desigIdx];
    assert EncodeType(t) + rest == EncodeInt(t.utcOffset, 4) + (dst + (desig + rest));
    IntEncoded(t.utcOffset, 4, dst + (desig + rest));
    TakeEncoded(dst, desig + rest);
    TakeEncoded(desig, rest);
  }

  lemma {:induction false} TypesEncoded(ts: seq<LocalTime>, rest: bytes)
    requires TypesFit(ts)
    ensures TypesFrom(EncodeTypes(ts) + rest, |ts|) == Some((ts, rest))
  {
    if ts == [] {
      assert EncodeTypes(ts) + rest == rest;
    } else {
      Reassociate(EncodeType(ts[0]), EncodeTypes(ts[1..]), rest);
      TypeEncoded(ts[0], EncodeTypes(ts[1..]) + rest);
      TypesEncoded(ts[1..], rest);
      HeadAndTail(ts);
    }
  }

  /** addTransition succeeds on all pairs exactly when every type exists. */
  lemma {:induction false} TransitionsExact(times: seq<int>, indices: bytes, types: seq<LocalTime>)
    requires |times| == |indices|
    ensures var r := Transitions(times, indices, types);
            && (r.Some? <==> forall i :: 0 <= i < |indices| ==> indices[i] < |types|)
            && (r.Some? ==> |r.value| == |times| && forall i :: 0 <= i < |times| ==>
                  r.value[i] == Transition(times[i], times[i] + types[indices[i]].utcOffset, indices[i]))
  {
    if times != [] {
      TransitionsExact(times[1..], indices[1..], types);
      assert forall i :: 0 < i < |indices| ==> indices[i] == indices[1..][i - 1];
    }
  }

  /** A block with leap seconds is refused, and so is one that names a type it lacks. */
  function ExpectedBlock(d: Table, rest: bytes): Option<(Block, bytes)>
    requires |d.times| == |d.indices|
  {
    if d.leaps == [] && TypesExist(d) then Some((Block(Described(d), d.designations, |d.isstd| + |d.isut|), rest)) else None
  }

  lemma BodyParts(d: Table, v1: bool, rest: bytes)
    requires ValidTable(d, v1)
    ensures var afterTimes := d.indices + (EncodeTypes(d.types) + d.designations) + rest;
            var afterIndices := EncodeTypes(d.types) + d.designations + rest;
            && IntsFrom(BodyBytes(d, v1) + rest, |d.times|, Width(v1)) == Some((d.times, afterTimes))
            && Take(afterTimes, |d.times|) == Some((d.indices, afterIndices))
            && TypesFrom(afterIndices, |d.types|) == Some((d.types, d.designations + rest))
  {
    var s2 := EncodeTypes(d.types) + d.designations;
    Reassociate(EncodeTimes(d.times, Width(v1)), d.indices + s2, rest);
    TimesEncoded(d.times, Width(v1), d.indices + s2 + rest);
    Reassociate(d.indices, s2, rest);
    TakeEncoded(d.indices, s2 + rest);
    Reassociate(EncodeTypes(d.types), d.designations, rest);
    TypesEncoded(d.types, d.designations + rest);
  }

  lemma BodyEncoded(d: Table, v1: bool, rest: bytes)
    requires ValidTable(d, v1) && d.leaps == []
    ensures BodyFrom(CountsOf(d), BodyBytes(d, v1) + rest, v1) == ExpectedBlock(d, rest)
  {
    BodyParts(d, v1, rest);
    NamesEncoded(d, v1, rest);
  }

  lemma NamesEncoded(d: Table, v1: bool, rest: bytes)
    requires ValidTable(d, v1) && d.leaps == []
    ensures NamesFrom(CountsOf(d), d.times, d.indices, d.types, d.designations + rest) == ExpectedBlock(d, rest)
  {
    TakeEncoded(d.designations, rest);
    TransitionsDescribed(d);
  }

  lemma TransitionsDescribed(d: Table)
    requires |d.times| == |d.indices|
    ensures Transitions(d.times, d.indices, d.types) ==
              if TypesExist(d) then Some(Described(d).transitions) else None
  {
    TransitionsExact(d.times, d.indices, d.types);
    if TypesExist(d) {
      assert Transitions(d.times, d.indices, d.types).value == Described(d).transitions;
    }
  }

  /** One block, of either width, is read back whatever follows it. */
  lemma BlockEncoded(d: Table, v1: bool, rest: bytes)
    requires ValidTable(d, v1)
    ensures BlockFrom(EncodeCounts(CountsOf(d)) + BodyBytes(d, v1) + rest, v1) == ExpectedBlock(d, rest)
  {
    Reassociate(EncodeCounts(CountsOf(d)), BodyBytes(d, v1), rest);
    CountsEncoded(CountsOf(d), BodyBytes(d, v1) + rest);
    if d.leaps == [] {
      BodyEncoded(d, v1, rest);
    }
  }

  /** The version-1 block takes just the bytes that its counts make the reader skip. */
  lemma FirstBlockSize(f: Source)
    requires ValidSource(f)
    ensures |FirstBlock(f)| == V1Size(CountsOf(f.first))
  {
    OldTimesSize(f.first.times);
    OldLeapsSize(f.first.leaps);
  }

  lemma {:induction false} OldTimesSize(ts: seq<int>)
    requires TimesFit(ts, 4)
    ensures |EncodeTimes(ts, 4)| == 4 * |ts|
  {
    if ts != [] {
      OldTimesSize(ts[1..]);
    }
  }

  lemma {:induction false} OldLeapsSize(ls: seq<(int, int)>)
    requires LeapsFit(ls, 4)
    ensures |EncodeLeaps(ls, 4)| == 8 * |ls|
  {
    if ls != [] {
      OldLeapsSize(ls[1..]);
    }
  }

  /** The two reads before the second block's counts. */
  lemma SecondHeaderEncoded(f: Source, rest: bytes)
    requires ValidSource(f)
    ensures var block := EncodeCounts(CountsOf(f.second)) + BodyBytes(f.second, false);
            && Take(SecondPart(f) + rest, 4) == Some((TZIF, f.header2 + block + rest))
            && Take(f.header2 + block + rest, 16) == Some((f.header2, block + rest))
  {
    var block := EncodeCounts(CountsOf(f.second)) + BodyBytes(f.second, false);
    Reassociate(TZIF, f.header2 + block, rest);
    TakeEncoded(TZIF, f.header2 + block + rest);
    Reassociate(f.header2, block, rest);
    TakeEncoded(f.header2, block + rest);
  }

  /** What reading an encoded block and finishing gives. */
  function BlockRead(d: Table, v1: bool, rest: bytes): Option<Data>
    requires ValidTable(d, v1)
  {
    Finished(BlockFrom(EncodeCounts(CountsOf(d)) + BodyBytes(d, v1) + rest, v1), v1)
  }

  lemma SecondOpened(f: Source, rest: bytes)
    requires ValidSource(f)
    ensures ReadSecond(SecondPart(f) + rest) == BlockRead(f.second, false, rest)
  {
    MagicIsTzif();
    SecondHeaderEncoded(f, rest);
  }

  function ExpectedData(d: Table, footer: bytes): Option<Data>
    requires |d.times| == |d.indices|
  {
    if d.leaps == [] && TypesExist(d) then Some(Data(Described(d), d.designations, footer)) else None
  }

  lemma BlockFinished(d: Table, v1: bool, rest: bytes, footer: bytes)
    requires ValidTable(d, v1) && footer == if v1 then [] else Drop(rest, |d.isstd| + |d.isut|)
    ensures BlockRead(d, v1, rest) == ExpectedData(d, footer)
  {
    BlockEncoded(d, v1, rest);
    FinishedExpected(d, rest);
  }

  lemma SecondEncoded(f: Source, rest: bytes, footer: bytes)
    requires ValidSource(f) && footer == Drop(rest, |f.second.isstd| + |f.second.isut|)
    ensures ReadSecond(SecondPart(f) + rest) == ExpectedData(f.second, footer)
  {
    SecondOpened(f, rest);
    BlockFinished(f.second, false, rest, footer);
  }

  lemma FinishedExpected(d: Table, rest: bytes)
    requires |d.times| == |d.indices|
    ensures Finished(ExpectedBlock(d, rest), false) == ExpectedData(d, Drop(rest, |d.isstd| + |d.isut|))
    ensures Finished(ExpectedBlock(d, rest), true) == ExpectedData(d, [])
  {
  }

  lemma HeaderEncoded(version: bytes, reserved: bytes, c: Counts, tail: bytes)
    requires |version| == 1 && |reserved| == 15 && CountsFit(c)
    ensures HeaderFrom(Header(version, reserved, c) + tail) == Some(((version, c), tail))
  {
    MagicIsTzif();
    var s3 := EncodeCounts(c);
    var s2 := reserved + s3;
    var s1 := version + s2;
    Reassociate(TZIF, s1, tail);
    TakeEncoded(TZIF, s1 + tail);
    Reassociate(version, s2, tail);
    TakeEncoded(version, s2 + tail);
    Reassociate(reserved, s3, tail);
    TakeEncoded(reserved, s3 + tail);
    CountsEncoded(c, tail);
  }

  /** What readTimeZoneFile has when the first header is behind it. */
  lemma FirstHeaderEncoded(f: Source, rest: bytes)
    requires ValidSource(f)
    ensures ReadZone(FirstHeader(f) + FirstBlock(f) + rest) == ReadSecond(rest)
  {
    var b := FirstHeader(f) + FirstBlock(f) + rest;
    MagicIsTzif();
    FirstBlockSize(f);
    Reassociate(FirstHeader(f), FirstBlock(f), rest);
    HeaderEncoded(TWO, f.reserved, CountsOf(f.first), FirstBlock(f) + rest);
    assert b[44 + |FirstBlock(f)|..] == rest;
  }

  /**
   Every version-2 file: the version-1 block is skipped exactly, and the encoded transitions,
   offsets, designations and footer come back; a file with leap seconds, or naming a type it lacks, is refused.
   */
  lemma ZoneFileRoundTrip(f: Source)
    requires ValidSource(f)
    ensures ReadZone(FileBytes(f)) == ExpectedData(f.second, f.footer)
  {
    var tail := TrailerBytes(f.second, false) + f.footer;
    Reassociate(FirstHeader(f) + FirstBlock(f), SecondPart(f), tail);
    FirstHeaderEncoded(f, SecondPart(f) + tail);
    SecondEncoded(f, tail, Drop(tail, |f.second.isstd| + |f.second.isut|));
    if f.second.leaps == [] {
      assert tail[|f.second.isstd| + |f.second.isut|..] == f.footer;
    }
  }

  /** Every version-1 file, whatever its version byte but "2" and whatever follows: its 4-byte times come back. */
  lemma OldZoneFileRoundTrip(version: bytes, reserved: bytes, d: Table, rest: bytes)
    requires |version| == 1 && version != TWO && |reserved| == 15 && ValidTable(d, true)
    ensures ReadZone(Header(version, reserved, CountsOf(d)) + BodyBytes(d, true) + rest) == ExpectedData(d, [])
  {
    var c, body := CountsOf(d), BodyBytes(d, true) + rest;
    Reassociate(Header(version, reserved, c), BodyBytes(d, true), rest);
    OldHeaderRewound(version, reserved, c, body);
    Reassociate(EncodeCounts(c), BodyBytes(d, true), rest);
    BlockFinished(d, true, rest, []);
  }

  /** In a file of another version the counts are read again. */
  lemma OldHeaderRewound(version: bytes, reserved: bytes, c: Counts, body: bytes)
    requires |version| == 1 && version != TWO && |reserved| == 15 && CountsFit(c)
    ensures ReadZone(Header(version, reserved, c) + body) == Finished(BlockFrom(EncodeCounts(c) + body, true), true)
  {
    MagicIsTzif();
    HeaderEncoded(version, reserved, c, body);
    DropToCounts(version, reserved, c, body);
  }

  lemma DropToCounts(version: bytes, reserved: bytes, c: Counts, body: bytes)
    requires |version| == 1 && |reserved| == 15 && CountsFit(c)
    ensures Drop(Header(version, reserved, c) + body, 20) == EncodeCounts(c) + body
  {
    var first := TZIF + (version + reserved);
    assert Header(version, reserved, c) == first + EncodeCounts(c);
    Reassociate(first, EncodeCounts(c), body);
    assert (first + (EncodeCounts(c) + body))[20..] == EncodeCounts(c) + body;
  }

  // ---- files cut short: every reader is unaffected by bytes after those it consumed ----

  lemma TakeExtends(s: bytes, n: int, t: bytes)
    requires Take(s, n).Some?
    ensures Take(s + t, n) == Some((Take(s, n).value.0, Take(s, n).value.1 + t))
  {
    assert (s + t)[..n] == s[..n] && (s + t)[n..] == s[n..] + t;
  }

  lemma CountsExtends(s: bytes, t: bytes)
    requires CountsFrom(s).Some?
    ensures CountsFrom(s + t) == Some((CountsFrom(s).value.0, CountsFrom(s).value.1 + t))
  {
    TakeExtends(s, 4, t);
    var (isut, s1) := IntFrom(s, 4).value;
    TakeExtends(s1, 4, t);
    var (isstd, s2) := IntFrom(s1, 4).value;
    TakeExtends(s2, 4, t);
    var (leap, s3) := IntFrom(s2, 4).value;
    TakeExtends(s3, 4, t);
    var (time, s4) := IntFrom(s3, 4).value;
    TakeExtends(s4, 4, t);
    var (typ, s5) := IntFrom(s4, 4).value;
    TakeExtends(s5, 4, t);
  }

  lemma {:induction false} IntsExtends(s: bytes, n: nat, width: nat, t: bytes)
    requires IntsFrom(s, n, width).Some?
    ensures IntsFrom(s + t, n, width) == Some((IntsFrom(s, n, width).value.0, IntsFrom(s, n, width).value.1 + t))
    decreases n
  {
    if n > 0 {
      TakeExtends(s, width, t);
      IntsExtends(IntFrom(s, width).value.1, n - 1, width, t);
    }
  }

  lemma {:induction false} TypesExtends(s: bytes, n: nat, t: bytes)
    requires TypesFrom(s, n).Some?
    ensures TypesFrom(s + t, n) == Some((TypesFrom(s, n).value.0, TypesFrom(s, n).value.1 + t))
    decreases n
  {
    if n > 0 {
      TypeExtends(s, t);
      TypesExtends(TypeFrom(s).value.1, n - 1, t);
    }
  }

  lemma TypeExtends(s: bytes, t: bytes)
    requires TypeFrom(s).Some?
    ensures TypeFrom(s + t) == Some((TypeFrom(s).value.0, TypeFrom(s).value.1 + t))
  {
    TakeExtends(s, 4, t);
    var s1 := IntFrom(s, 4).value.1;
    TakeExtends(s1, 1, t);
    TakeExtends(Take(s1, 1).value.1, 1, t);
  }

  lemma BlockExtends(s: bytes, v1: bool, t: bytes)
    requires BlockFrom(s, v1).Some?
    ensures BlockFrom(s + t, v1) == Some((BlockFrom(s, v1).value.0, BlockFrom(s, v1).value.1 + t))
  {
    CountsExtends(s, t);
    var (c, s1) := CountsFrom(s).value;
    var width := if v1 then 4 else 8;
    IntsExtends(s1, c.time, width, t);
    var s2 := IntsFrom(s1, c.time, width).value.1;
    TakeExtends(s2, c.time, t);
    var s3 := Take(s2, c.time).value.1;
    TypesExtends(s3, c.typ, t);
    var s4 := TypesFrom(s3, c.typ).value.1;
    TakeExtends(s4, c.chars, t);
  }

  /** Reading the second part of a file from which the last bytes t were cut off. */
  lemma SecondCut(f: Source, rest: bytes, s: bytes, t: bytes)
    requires ValidSource(f) && s + t == SecondPart(f) + rest && |t| > |rest|
    ensures ReadSecond(s) == None
  {
    if ReadSecond(s).Some? {
      TakeExtends(s, 4, t);
      var s1 := Take(s, 4).value.1;
      var cut := Drop(s1, 16);
      if |s1| >= 16 {
        TakeExtends(s1, 16, t);
      } else {
        assert CountsFrom([]).None?;
      }
      BlockExtends(cut, false, t);
      MagicIsTzif();
      SecondHeaderEncoded(f, rest);
      BlockEncoded(f.second, false, rest);
    }
  }

  /** Any prefix that stops before the designations end is refused. */
  lemma ShortZoneFileRefused(f: Source, k: nat)
    requires ValidSource(f) && k < |UpToDesignations(f)|
    ensures ReadZone(FileBytes(f)[..k]) == None
  {
    var s, t := FileBytes(f)[..k], FileBytes(f)[k..];
    var tail := TrailerBytes(f.second, false) + f.footer;
    var first := FirstHeader(f) + FirstBlock(f);
    assert s + t == FileBytes(f);
    Reassociate(first, SecondPart(f), tail);
    if ReadZone(s).Some? {
      HeaderCut(f, s, t, SecondPart(f) + tail);
      if |first| <= k {
        DropCut(s, t, first, SecondPart(f) + tail);
        SecondCut(f, tail, s[|first|..], t);
      }
    }
  }

  lemma DropCut(s: bytes, t: bytes, first: bytes, rest: bytes)
    requires s + t == first + rest && |first| <= |s|
    ensures s[|first|..] + t == rest
  {
    assert (s + t)[|first|..] == s[|first|..] + t;
    assert (first + rest)[|first|..] == rest;
  }

  lemma HeaderExtends(s: bytes, t: bytes)
    requires HeaderFrom(s).Some?
    ensures HeaderFrom(s + t).Some? && HeaderFrom(s + t).value.0 == HeaderFrom(s).value.0
  {
    TakeExtends(s, 4, t);
    var s1 := Take(s, 4).value.1;
    TakeExtends(s1, 1, t);
    var s2 := Take(s1, 1).value.1;
    TakeExtends(s2, 15, t);
    CountsExtends(Take(s2, 15).value.1, t);
  }

  /** A file cut anywhere still has the version and counts of the first header once it gets past it. */
  lemma HeaderCut(f: Source, s: bytes, t: bytes, rest: bytes)
    requires ValidSource(f) && s + t == FirstHeader(f) + FirstBlock(f) + rest
    requires ReadZone(s).Some?
    ensures ReadZone(s) == ReadSecond(Drop(s, 44 + |FirstBlock(f)|))
  {
    MagicIsTzif();
    HeaderExtends(s, t);
    Reassociate(FirstHeader(f), FirstBlock(f), rest);
    HeaderEncoded(TWO, f.reserved, CountsOf(f.first), FirstBlock(f) + rest);
    FirstBlockSize(f);
  }
}
