/**
 The incremental request parser of muduo/net/http/HttpContext.cc, with the field setters of
 muduo/net/http/HttpRequest.h (request line and header fields, sections 3.1.1 and 3.2 of RFC 7230).
 */
module Http {
  import opened Bytes
  import opened GapBuffer

  datatype Method = Invalid | Get | Post | Head | Put | Delete
  datatype Version = Unknown | Http10 | Http11
  datatype ParseState = ExpectRequestLine | ExpectHeaders | ExpectBody | GotAll

  datatype Request = Request(verb: Method, version: Version, path: bytes, query: bytes, headers: map<bytes, bytes>)
  datatype Context = Context(state: ParseState, request: Request)

  const SPACE: byte := ' ' as int
  const QUESTION: byte := '?' as int
  const COLON: byte := ':' as int
  const CRLF: bytes := [13, 10]

  // ---- one line ----

  /** std::find: the first place of x, or the length. */
  function Find(s: bytes, x: byte): (i: nat)
    ensures i <= |s|
    ensures i < |s| ==> s[i] == x
    ensures x !in s[..i]
  {
    if s == [] || s[0] == x then 0 else
    var i := 1 + Find(s[1..], x);
    assert s[..i] == [s[0]] + s[1..][..i - 1];
    i
  }

  function MethodOf(s: bytes): Method {
    if s == Ascii("GET") then Get
    else if s == Ascii("POST") then Post
    else if s == Ascii("HEAD") then Head
    else if s == Ascii("PUT") then Put
    else if s == Ascii("DELETE") then Delete
    else Invalid
  }

  /** processRequestLine: the request as far as it was filled, and whether the line is good. */
  function RequestLine(r: Request, line: bytes): (Request, bool) {
    var space := Find(line, SPACE);
    var m := MethodOf(line[..space]);
    if space == |line| then (r, false)
    else if m == Invalid then (r.(verb := Invalid), false)
    else Target(r.(verb := m), line[space + 1..])
  }

  /** What follows the method: target, then version. */
  function Target(r: Request, s: bytes): (Request, bool) {
    var space := Find(s, SPACE);
    if space == |s| then (r, false)
    else
      var question := Find(s[..space], QUESTION);
      var r1 := if question < space then r.(path := s[..question], query := s[question..space]) else r.(path := s[..space]);
      ProtocolVersion(r1, s[space + 1..])
  }

  function ProtocolVersion(r: Request, s: bytes): (Request, bool) {
    if |s| == 8 && s[..7] == Ascii("HTTP/1.") then
      if s[7] == '1' as int then (r.(version := Http11), true)
      else if s[7] == '0' as int then (r.(version := Http10), true)
      else (r, false)
    else (r, false)
  }

  /** isspace in the C locale. */
  predicate IsSpace(x: byte) {
    x == 32 || 9 <= x <= 13
  }

  function TrimLeft(s: bytes): bytes {
    if s != [] && IsSpace(s[0]) then TrimLeft(s[1..]) else s
  }

  function TrimRight(s: bytes): bytes {
    if s != [] && IsSpace(s[|s| - 1]) then TrimRight(s[..|s| - 1]) else s
  }

  /** addHeader; a repeated field overwrites. */
  function WithHeader(r: Request, line: bytes, colon: nat): Request
    requires colon < |line|
  {
    r.(headers := r.headers[line[..colon] := TrimRight(TrimLeft(line[colon + 1..]))])
  }

  // ---- parseRequest ----

  datatype Outcome = Outcome(ctx: Context, rest: bytes, ok: bool)

  /** The two states in which parseRequest makes progress; in the others its loop does not end. */
  predicate Parsing(ctx: Context) {
    ctx.state == ExpectRequestLine || ctx.state == ExpectHeaders
  }

  /** So far setMethod has found no method set, as it asserts. */
  predicate Ready(ctx: Context) {
    Parsing(ctx) && (ctx.state == ExpectRequestLine ==> ctx.request.verb == Invalid)
  }

  /** What one line, found before a CR LF, does: the context after it, whether to go on, and whether it is used up. */
  datatype LineEffect = LineEffect(ctx: Context, more: bool, ok: bool)

  function TakeLine(ctx: Context, line: bytes): LineEffect
    requires Parsing(ctx)
  {
    if ctx.state == ExpectRequestLine then
      var (r, ok) := RequestLine(ctx.request, line);
      if ok then LineEffect(Context(ExpectHeaders, r), true, true) else LineEffect(ctx.(request := r), false, false)
    else
      var colon := Find(line, COLON);
      if colon != |line| then LineEffect(ctx.(request := WithHeader(ctx.request, line, colon)), true, true)
      else LineEffect(ctx.(state := GotAll), false, true)
  }

  /** parseRequest on the readable bytes: context, bytes left, and the returned flag. */
  function Parse(ctx: Context, buf: bytes): Outcome
    requires Parsing(ctx)
    decreases |buf|
  {
    FindCRLFIsLeftmost(buf);
    match FindCRLF(buf)
    case None => Outcome(ctx, buf, true)
    case Some(crlf) =>
      var e := TakeLine(ctx, buf[..crlf]);
      if !e.ok then Outcome(e.ctx, buf, false)
      else if e.more then Parse(e.ctx, buf[crlf + 2..])
      else Outcome(e.ctx, buf[crlf + 2..], true)
  }

  lemma ParseLine(ctx: Context, buf: bytes, crlf: nat)
    requires Parsing(ctx) && FindCRLF(buf) == Some(crlf) && crlf + 2 <= |buf|
    ensures var e := TakeLine(ctx, buf[..crlf]); e.more ==> e.ok && Parsing(e.ctx)
    ensures var e := TakeLine(ctx, buf[..crlf]);
            Parse(ctx, buf) == if !e.ok then Outcome(e.ctx, buf, false)
                               else if e.more then Parse(e.ctx, buf[crlf + 2..])
                               else Outcome(e.ctx, buf[crlf + 2..], true)
  {
  }

  lemma LineKeepsReady(ctx: Context, line: bytes)
    requires Ready(ctx)
    ensures var e := TakeLine(ctx, line); e.ok && Parsing(e.ctx) ==> e.more && Ready(e.ctx)
  {
  }

  class HttpContext {
    var state: ParseState
    var request: Request

    constructor ()
      ensures View() == Context(ExpectRequestLine, Request(Invalid, Unknown, [], [], map[]))
    {
      state := ExpectRequestLine;
      request := Request(Invalid, Unknown, [], [], map[]);
    }

    function View(): Context
      reads this
    {
      Context(state, request)
    }

    /** The precondition is the assert of setMethod. */
    method ProcessRequestLine(line: bytes) returns (succeed: bool)
      requires request.verb == Invalid
      modifies this`request
      ensures (request, succeed) == RequestLine(old(request), line)
    {
      succeed := false;
      var space := Find(line, SPACE);
      if space != |line| {
        request := request.(verb := MethodOf(line[..space]));
        if request.verb != Invalid {
          succeed := ProcessTarget(line[space + 1..]);
        }
      }
    }

    method ProcessTarget(start: bytes) returns (succeed: bool)
      modifies this`request
      ensures (request, succeed) == Target(old(request), start)
    {
      succeed := false;
      var space := Find(start, SPACE);
      if space != |start| {
        var question := Find(start[..space], QUESTION);
        if question != space {
          request := request.(path := start[..question], query := start[question..space]);
        } else {
          request := request.(path := start[..space]);
        }
        succeed := ProcessVersion(start[space + 1..]);
      }
    }

    method ProcessVersion(start: bytes) returns (succeed: bool)
      modifies this`request
      ensures (request, succeed) == ProtocolVersion(old(request), start)
    {
      succeed := |start| == 8 && start[..7] == Ascii("HTTP/1.");
      if succeed {
        if start[7] == '1' as int {
          request := request.(version := Http11);
        } else if start[7] == '0' as int {
          request := request.(version := Http10);
        } else {
          succeed := false;
        }
      }
    }

    /** HttpRequest::addHeader: skip blanks after the colon, then drop them from the end. */
    method AddHeader(line: bytes, colon: nat)
      requires colon < |line|
      modifies this`request
      ensures request == WithHeader(old(request), line, colon)
    {
      var start := colon + 1;
      while start < |line| && IsSpace(line[start])
        invariant colon < start <= |line| && TrimLeft(line[start..]) == TrimLeft(line[colon + 1..])
      {
        start := start + 1;
      }
      var value := line[start..];
      ghost var untrimmed := value;
      while value != [] && IsSpace(value[|value| - 1])
        invariant TrimRight(value) == TrimRight(untrimmed)
        decreases |value|
      {
        value := value[..|value| - 1];
      }
      request := request.(headers := request.headers[line[..colon] := value]);
    }

    /** One line: what it does to the context, whether to go on, and whether it was well formed. */
    method ProcessLine(line: bytes) returns (hasMore: bool, ok: bool)
      requires Ready(View())
      modifies this
      ensures LineEffect(View(), hasMore, ok) == TakeLine(old(View()), line)
    {
      hasMore, ok := true, true;
      if state == ExpectRequestLine {
        ok := ProcessRequestLine(line);
        if ok {
          state := ExpectHeaders;
        } else {
          hasMore := false;
        }
      } else {
        var colon := Find(line, COLON);
        if colon != |line| {
          AddHeader(line, colon);
        } else {
          state := GotAll;
          hasMore := false;
        }
      }
    }

    /** One round of the loop in parseRequest: while it goes on, the readable bytes decrease. */
    method ParseNextLine(buf: Buffer) returns (hasMore: bool, ok: bool)
      requires buf.Valid() && Ready(View())
      modifies this, buf
      ensures buf.Valid() && buf.data == old(buf.data)
      ensures hasMore || (ok && Parsing(View())) ==> Ready(View())
      ensures hasMore ==> ok && Parse(View(), buf.Contents()) == Parse(old(View()), old(buf.Contents()))
      ensures hasMore ==> buf.ReadableBytes() < old(buf.ReadableBytes())
      ensures !hasMore ==> Outcome(View(), buf.Contents(), ok) == Parse(old(View()), old(buf.Contents()))
    {
      ghost var ctx, text := View(), buf.Contents();
      FindCRLFIsLeftmost(text);
      var crlf := FindCRLF(buf.Contents());
      if crlf.None? {
        return false, true;
      }
      ParseLine(ctx, text, crlf.value);
      LineKeepsReady(ctx, text[..crlf.value]);
      ghost var e := TakeLine(ctx, text[..crlf.value]);
      hasMore, ok := ProcessLine(buf.Contents()[..crlf.value]);
      assert View() == e.ctx && hasMore == e.more && ok == e.ok && buf.Contents() == text;
      if ok {
        buf.Retrieve(crlf.value + 2);
        assert buf.Contents() == text[crlf.value + 2..];
      }
    }

    method ParseRequest(buf: Buffer) returns (ok: bool)
      requires buf.Valid() && Ready(View())
      modifies this, buf
      ensures buf.Valid() && buf.data == old(buf.data)
      ensures ok && Parsing(View()) ==> Ready(View())
      ensures Outcome(View(), buf.Contents(), ok) == Parse(old(View()), old(buf.Contents()))
    {
      ghost var to := Parse(View(), buf.Contents());
      ok := true;
      var hasMore := true;
      while hasMore
        invariant buf.Valid() && buf.data == old(buf.data)
        invariant hasMore || (ok && Parsing(View())) ==> Ready(View())
        invariant hasMore ==> Parse(View(), buf.Contents()) == to
        invariant !hasMore ==> Outcome(View(), buf.Contents(), ok) == to
        decreases hasMore, buf.ReadableBytes()
      {
        hasMore, ok := ParseNextLine(buf);
      }
    }
  }

  // ---- chunks ----

  /** parseRequest after each chunk, until it has everything or fails; bytes not fed count as left. */
  function Feed(ctx: Context, buf: bytes, chunks: seq<bytes>): Outcome
    requires Parsing(ctx)
    decreases chunks
  {
    if chunks == [] then Outcome(ctx, buf, true)
    else
      var o := Parse(ctx, buf + chunks[0]);
      if !o.ok || !Parsing(o.ctx) then o.(rest := o.rest + Flatten(chunks[1..]))
      else Feed(o.ctx, o.rest, chunks[1..])
  }

  lemma {:induction false} FindCRLFStable(buf: bytes, more: bytes)
    requires FindCRLF(buf).Some?
    ensures FindCRLF(buf + more) == FindCRLF(buf)
    decreases |buf|
  {
    if !(buf[0] == 13 && buf[1] == 10) {
      assert (buf + more)[1..] == buf[1..] + more;
      FindCRLFStable(buf[1..], more);
    }
  }

  /** Parsing goes on from what was left exactly as if the bytes had come together. */
  lemma {:induction false} ParseContinues(ctx: Context, buf: bytes, more: bytes)
    requires Parsing(ctx)
    ensures var o := Parse(ctx, buf);
            Parse(ctx, buf + more) ==
              if o.ok && Parsing(o.ctx) then Parse(o.ctx, o.rest + more) else o.(rest := o.rest + more)
    decreases |buf|
  {
    FindCRLFIsLeftmost(buf);
    var crlf := FindCRLF(buf);
    if crlf.Some? {
      FindCRLFStable(buf, more);
      assert (buf + more)[..crlf.value] == buf[..crlf.value];
      assert (buf + more)[crlf.value + 2..] == buf[crlf.value + 2..] + more;
      var e := TakeLine(ctx, buf[..crlf.value]);
      if e.ok && e.more {
        ParseContinues(e.ctx, buf[crlf.value + 2..], more);
      }
    }
  }

  /** For every byte string and every cutting: the same state, request and bytes left as when it comes whole. */
  lemma {:induction false} ChunksDoNotMatter(ctx: Context, buf: bytes, chunks: seq<bytes>)
    requires Parsing(ctx) && chunks != []
    ensures Feed(ctx, buf, chunks) == Parse(ctx, buf + Flatten(chunks))
    decreases chunks
  {
    var o, tail := Parse(ctx, buf + chunks[0]), Flatten(chunks[1..]);
    assert buf + Flatten(chunks) == buf + chunks[0] + tail;
    ParseContinues(ctx, buf + chunks[0], tail);
    if o.ok && Parsing(o.ctx) {
      if |chunks| > 1 {
        ChunksDoNotMatter(o.ctx, o.rest, chunks[1..]);
      } else {
        assert o.rest + tail == o.rest;
        ParseSettled(ctx, buf + chunks[0]);
      }
    }
  }

  /** What is left after a call that wants more holds no line, so another call on it changes nothing. */
  lemma {:induction false} ParseSettled(ctx: Context, buf: bytes)
    requires Parsing(ctx)
    ensures var o := Parse(ctx, buf); o.ok && Parsing(o.ctx) ==> FindCRLF(o.rest).None? && Parse(o.ctx, o.rest) == o
    decreases |buf|
  {
    FindCRLFIsLeftmost(buf);
    var crlf := FindCRLF(buf);
    if crlf.Some? {
      ParseLine(ctx, buf, crlf.value);
      var e := TakeLine(ctx, buf[..crlf.value]);
      if e.more {
        ParseSettled(e.ctx, buf[crlf.value + 2..]);
      } else {
        LastLineSettles(ctx, buf[..crlf.value]);
      }
    }
  }

  lemma LastLineSettles(ctx: Context, line: bytes)
    requires Parsing(ctx) && !TakeLine(ctx, line).more
    ensures var e := TakeLine(ctx, line); !e.ok || !Parsing(e.ctx)
  {
  }

  /** Until its first error the parser is always ready: setMethod's assert holds at every call. */
  lemma {:induction false} ParseKeepsReady(ctx: Context, buf: bytes)
    requires Ready(ctx)
    ensures var o := Parse(ctx, buf); o.ok && Parsing(o.ctx) ==> Ready(o.ctx)
    decreases |buf|
  {
    FindCRLFIsLeftmost(buf);
    var crlf := FindCRLF(buf);
    if crlf.Some? {
      ParseLine(ctx, buf, crlf.value);
      var line := buf[..crlf.value];
      LineKeepsReady(ctx, line);
      if TakeLine(ctx, line).more {
        ParseKeepsReady(TakeLine(ctx, line).ctx, buf[crlf.value + 2..]);
      }
    }
  }

  /** A header line never fails, and ends the headers exactly if it has no colon. */
  lemma HeaderLineExact(ctx: Context, line: bytes)
    requires ctx.state == ExpectHeaders
    ensures var e := TakeLine(ctx, line);
            e.ok && (e.ctx.state == GotAll <==> COLON !in line) && (e.more <==> COLON in line)
    ensures COLON in line ==> TakeLine(ctx, line).ctx.state == ExpectHeaders
  {
    var colon := Find(line, COLON);
    assert line[..|line|] == line;
  }

  lemma {:induction false} HeadersNeverFail(ctx: Context, buf: bytes)
    requires ctx.state == ExpectHeaders
    ensures Parse(ctx, buf).ok
    decreases |buf|
  {
    FindCRLFIsLeftmost(buf);
    var crlf := FindCRLF(buf);
    if crlf.Some? {
      ParseLine(ctx, buf, crlf.value);
      HeaderLineExact(ctx, buf[..crlf.value]);
      if COLON in buf[..crlf.value] {
        HeadersNeverFail(TakeLine(ctx, buf[..crlf.value]).ctx, buf[crlf.value + 2..]);
      }
    }
  }

  /**
   After an error another call meets setMethod's assert, and passes it exactly if the bad line had no space
   or began with an unknown method.
   */
  lemma ReadyAfterError(ctx: Context, buf: bytes)
    requires Ready(ctx) && !Parse(ctx, buf).ok
    ensures Lines(buf) != []
    ensures var line := Lines(buf)[0];
            Ready(Parse(ctx, buf).ctx) <==> SPACE !in line || MethodOf(line[..Find(line, SPACE)]) == Invalid
  {
    FindCRLFIsLeftmost(buf);
    if ctx.state == ExpectHeaders {
      HeadersNeverFail(ctx, buf);
    } else {
      var crlf := FindCRLF(buf).value;
      ParseLine(ctx, buf, crlf);
      var line := buf[..crlf];
      var e := TakeLine(ctx, line);
      if e.ok {
        HeadersNeverFail(e.ctx, buf[crlf + 2..]);
      }
      BadLineVerb(ctx.request, line);
    }
  }

  lemma BadLineVerb(r: Request, line: bytes)
    requires r.verb == Invalid && !RequestLine(r, line).1
    ensures RequestLine(r, line).0.verb == Invalid <==> SPACE !in line || MethodOf(line[..Find(line, SPACE)]) == Invalid
  {
    var space := Find(line, SPACE);
    assert line[..|line|] == line;
    if space < |line| {
      assert SPACE in line;
      TargetKeepsVerb(r.(verb := MethodOf(line[..space])), line[space + 1..]);
    }
  }

  lemma TargetKeepsVerb(r: Request, s: bytes)
    ensures Target(r, s).0.verb == r.verb
  {
  }

  /** Such a line: a known method, and nothing like a target after it. */
  lemma BadLineBreaksAssert()
    ensures var ctx := Context(ExpectRequestLine, Request(Invalid, Unknown, [], [], map[]));
            var o := Parse(ctx, Ascii("GET x") + CRLF + []);
            Ready(ctx) && !o.ok && Parsing(o.ctx) && o.ctx.request.verb == Get && !Ready(o.ctx)
  {
    var ctx := Context(ExpectRequestLine, Request(Invalid, Unknown, [], [], map[]));
    var line := Ascii("GET x");
    assert line == Ascii("GET") + [SPACE] + Ascii("x");
    FindIn(Ascii("GET"), SPACE, Ascii("x"));
    assert line[..3] == Ascii("GET") && line[4..] == Ascii("x");
    FindIn(Ascii("x"), SPACE, []);
    FindCRLFAfter(line, []);
    var buf := line + CRLF + [];
    assert buf[..|line|] == line;
    ParseLine(ctx, buf, |line|);
  }

  // ---- where the headers end ----

  /** The lines of a byte string that are complete. */
  function Lines(buf: bytes): seq<bytes>
    decreases |buf|
  {
    FindCRLFIsLeftmost(buf);
    match FindCRLF(buf)
    case None => []
    case Some(k) => [buf[..k]] + Lines(buf[k + 2..])
  }

  /** The bytes that the first n lines take, with their CR LF. */
  function Span(lines: seq<bytes>, n: nat): nat
    requires n <= |lines|
  {
    if n == 0 then 0 else |lines[0]| + 2 + Span(lines[1..], n - 1)
  }

  /** Line n is the first without a colon. */
  predicate FirstBare(lines: seq<bytes>, n: nat) {
    n < |lines| && COLON !in lines[n] && forall i :: 0 <= i < n ==> COLON in lines[i]
  }

  lemma FirstBareNext(lines: seq<bytes>, n: nat)
    requires lines != [] && COLON in lines[0]
    ensures FirstBare(lines, n) <==> n > 0 && FirstBare(lines[1..], n - 1)
  {
    if n > 0 && FirstBare(lines[1..], n - 1) {
      assert forall i :: 0 < i < |lines| ==> lines[i] == lines[1..][i - 1];
    }
  }

  /** The headers end exactly at the first complete line that has no colon, and what follows it is left. */
  lemma {:induction false} HeadersEndExactly(ctx: Context, buf: bytes, n: nat)
    requires ctx.state == ExpectHeaders && FirstBare(Lines(buf), n)
    ensures var o := Parse(ctx, buf);
            && o.ok && o.ctx.state == GotAll
            && Span(Lines(buf), n + 1) <= |buf| && o.rest == buf[Span(Lines(buf), n + 1)..]
    decreases |buf|
  {
    FindCRLFIsLeftmost(buf);
    var k := FindCRLF(buf).value;
    var rest := buf[k + 2..];
    assert Lines(buf)[0] == buf[..k] && Lines(buf)[1..] == Lines(rest);
    HeaderLineExact(ctx, buf[..k]);
    ParseLine(ctx, buf, k);
    if COLON in buf[..k] {
      FirstBareNext(Lines(buf), n);
      HeadersEndExactly(TakeLine(ctx, buf[..k]).ctx, rest, n - 1);
      assert rest[Span(Lines(rest), n)..] == buf[Span(Lines(buf), n + 1)..];
    } else {
      assert n == 0;
    }
  }

  /** Without such a line the headers go on. */
  lemma {:induction false} HeadersGoOn(ctx: Context, buf: bytes)
    requires ctx.state == ExpectHeaders && forall i :: 0 <= i < |Lines(buf)| ==> COLON in Lines(buf)[i]
    ensures Parse(ctx, buf).ok && Parse(ctx, buf).ctx.state == ExpectHeaders
    decreases |buf|
  {
    FindCRLFIsLeftmost(buf);
    if FindCRLF(buf).Some? {
      var k := FindCRLF(buf).value;
      assert Lines(buf)[0] == buf[..k] && Lines(buf)[1..] == Lines(buf[k + 2..]);
      HeaderLineExact(ctx, buf[..k]);
      ParseLine(ctx, buf, k);
      HeadersGoOn(TakeLine(ctx, buf[..k]).ctx, buf[k + 2..]);
    }
  }

  lemma {:induction false} SpanGrows(lines: seq<bytes>, m: nat, n: nat)
    requires m < n <= |lines|
    ensures Span(lines, m) < Span(lines, n)
  {
    if m > 0 {
      SpanGrows(lines[1..], m - 1, n - 1);
    }
  }

  lemma {:induction false} FindFirstBare(lines: seq<bytes>, n: nat) returns (m: nat)
    requires n < |lines| && COLON !in lines[n]
    ensures m <= n && FirstBare(lines, m)
  {
    if COLON !in lines[0] {
      m := 0;
    } else {
      m := FindFirstBare(lines[1..], n - 1);
      m := m + 1;
      FirstBareNext(lines, m);
    }
  }

  lemma {:induction false} SpanFits(buf: bytes, n: nat)
    requires n <= |Lines(buf)|
    ensures Span(Lines(buf), n) <= |buf|
    decreases |buf|
  {
    FindCRLFIsLeftmost(buf);
    if n > 0 {
      var k := FindCRLF(buf).value;
      assert Lines(buf)[1..] == Lines(buf[k + 2..]);
      SpanFits(buf[k + 2..], n - 1);
    }
  }

  /** The headers end at the empty line n, as they should, if and only if every line before it has a colon. */
  lemma EmptyLineEndsHeadersExactly(ctx: Context, buf: bytes, n: nat)
    requires ctx.state == ExpectHeaders && n < |Lines(buf)| && Lines(buf)[n] == []
    ensures Span(Lines(buf), n + 1) <= |buf|
    ensures var o := Parse(ctx, buf);
            o.ctx.state == GotAll && o.rest == buf[Span(Lines(buf), n + 1)..]
            <==> forall i :: 0 <= i < n ==> COLON in Lines(buf)[i]
  {
    SpanFits(buf, n + 1);
    var m := FindFirstBare(Lines(buf), n);
    HeadersEndExactly(ctx, buf, m);
    EndsThereExactly(Parse(ctx, buf), buf, Lines(buf), m, n);
  }

  lemma EndsThereExactly(o: Outcome, buf: bytes, lines: seq<bytes>, m: nat, n: nat)
    requires FirstBare(lines, m) && m <= n < |lines| && Span(lines, m + 1) <= |buf| && Span(lines, n + 1) <= |buf|
    requires o.ctx.state == GotAll && o.rest == buf[Span(lines, m + 1)..]
    ensures o.ctx.state == GotAll && o.rest == buf[Span(lines, n + 1)..] <==> forall i :: 0 <= i < n ==> COLON in lines[i]
  {
    BareBefore(lines, m, n);
    if m < n {
      SpanGrows(lines, m + 1, n + 1);
      RestsDiffer(buf, Span(lines, m + 1), Span(lines, n + 1));
    }
  }

  lemma BareBefore(lines: seq<bytes>, m: nat, n: nat)
    requires FirstBare(lines, m) && m <= n < |lines|
    ensures m == n <==> forall i :: 0 <= i < n ==> COLON in lines[i]
  {
  }

  lemma RestsDiffer(buf: bytes, i: nat, j: nat)
    requires i < j <= |buf|
    ensures buf[i..] != buf[j..]
  {
    assert |buf[i..]| != |buf[j..]|;
  }

  lemma BareLineParsed(r: Request, line: bytes, later: bytes)
    requires Line(line) && COLON !in line
    ensures Parse(Context(ExpectHeaders, r), line + CRLF + later) == Outcome(Context(GotAll, r), later, true)
  {
    HeaderLineExact(Context(ExpectHeaders, r), line);
    LineParsed(Context(ExpectHeaders, r), line, later);
  }

  /** So a non-empty line without a colon ends them too, and later headers are left as if they were the body. */
  lemma BareLineEndsHeaders(r: Request)
    ensures var later := Ascii("Host:x") + CRLF + CRLF;
            Parse(Context(ExpectHeaders, r), Ascii("abc") + CRLF + later) == Outcome(Context(GotAll, r), later, true)
  {
    BareLineParsed(r, Ascii("abc"), Ascii("Host:x") + CRLF + CRLF);
  }

  // ---- what a well-formed request parses to ----

  /** A header field as sent, with optional white space around the value. */
  datatype HeaderField = HeaderField(name: bytes, before: bytes, value: bytes, after: bytes)

  predicate Line(s: bytes) {
    13 !in s
  }

  predicate Token(s: bytes) {
    Line(s) && SPACE !in s
  }

  /** Tab, line feed, vertical tab, form feed, carriage return, space. */
  const BLANKS: set<byte> := {9, 10, 11, 12, 13, 32}

  predicate Blank(s: bytes) {
    forall i :: 0 <= i < |s| ==> s[i] in BLANKS
  }

  predicate ValidField(f: HeaderField) {
    && Line(f.name) && COLON !in f.name
    && Line(f.before) && Blank(f.before) && Line(f.after) && Blank(f.after)
    && Line(f.value) && (f.value != [] ==> f.value[0] !in BLANKS && f.value[|f.value| - 1] !in BLANKS)
  }

  function MethodText(m: Method): bytes
    requires m != Invalid
  {
    match m
    case Get => Ascii("GET")
    case Post => Ascii("POST")
    case Head => Ascii("HEAD")
    case Put => Ascii("PUT")
    case Delete => Ascii("DELETE")
  }

  function VersionText(v: Version): bytes
    requires v != Unknown
  {
    if v == Http11 then Ascii("HTTP/1.1") else Ascii("HTTP/1.0")
  }

  predicate ValidLine(m: Method, path: bytes, query: bytes, v: Version) {
    && m != Invalid && v != Unknown
    && Token(path) && QUESTION !in path && Token(query) && (query != [] ==> query[0] == QUESTION)
  }

  function LineText(m: Method, path: bytes, query: bytes, v: Version): bytes
    requires m != Invalid && v != Unknown
  {
    MethodText(m) + [SPACE] + (path + query + [SPACE] + VersionText(v))
  }

  function FieldText(f: HeaderField): bytes {
    f.name + [COLON] + (f.before + f.value + f.after)
  }

  function HeaderText(fs: seq<HeaderField>): bytes {
    if fs == [] then CRLF else FieldText(fs[0]) + CRLF + HeaderText(fs[1..])
  }

  function HeaderMap(have: map<bytes, bytes>, fs: seq<HeaderField>): map<bytes, bytes>
    decreases fs
  {
    if fs == [] then have else HeaderMap(have[fs[0].name := fs[0].value], fs[1..])
  }

  lemma {:induction false} FindIn(s: bytes, x: byte, rest: bytes)
    requires x !in s
    ensures Find(s + [x] + rest, x) == |s|
    ensures Find(s, x) == |s|
  {
    if s != [] {
      assert (s + [x] + rest)[1..] == s[1..] + [x] + rest;
      FindIn(s[1..], x, rest);
    }
  }

  lemma {:induction false} FindCRLFAfter(line: bytes, rest: bytes)
    requires Line(line)
    ensures FindCRLF(line + CRLF + rest) == Some(|line|)
  {
    if line != [] {
      assert (line + CRLF + rest)[1..] == line[1..] + CRLF + rest;
      FindCRLFAfter(line[1..], rest);
    }
  }

  lemma MethodRead(m: Method)
    requires m != Invalid
    ensures MethodOf(MethodText(m)) == m && Token(MethodText(m))
  {
    assert Ascii("GET")[0] == 71 && Ascii("POST")[1] == 79 && Ascii("HEAD")[0] == 72 && Ascii("PUT")[1] == 85
           && Ascii("DELETE")[0] == 68;
  }

  lemma VersionRead(r: Request, v: Version)
    requires v != Unknown
    ensures ProtocolVersion(r, VersionText(v)) == (r.(version := v), true) && Token(VersionText(v))
  {
    var s := VersionText(v);
    assert s[..7] == Ascii("HTTP/1.");
  }

  lemma TargetRead(r: Request, path: bytes, query: bytes, v: Version)
    requires ValidLine(Get, path, query, v)
    ensures Target(r, path + query + [SPACE] + VersionText(v)) ==
              (if query == [] then r.(path := path, version := v) else r.(path := path, query := query, version := v), true)
  {
    var s := path + query + [SPACE] + VersionText(v);
    var n := |path + query|;
    FindIn(path + query, SPACE, VersionText(v));
    assert s[..n] == path + query && s[n + 1..] == VersionText(v);
    if query == [] {
      assert path + query == path;
      FindIn(path, QUESTION, []);
      VersionRead(r.(path := path), v);
    } else {
      assert path + query == path + [QUESTION] + query[1..];
      FindIn(path, QUESTION, query[1..]);
      assert s[..|path|] == path && s[|path|..n] == query;
      VersionRead(r.(path := path, query := query), v);
    }
  }

  /** A request line built from its parts is read back as those parts. */
  lemma RequestLineRead(r: Request, m: Method, path: bytes, query: bytes, v: Version)
    requires ValidLine(m, path, query, v)
    ensures RequestLine(r, LineText(m, path, query, v)) ==
              (if query == [] then r.(verb := m, path := path, version := v)
               else r.(verb := m, path := path, query := query, version := v), true)
  {
    var rest := path + query + [SPACE] + VersionText(v);
    MethodRead(m);
    MethodThenTarget(r, m, MethodText(m), rest);
    TargetRead(r.(verb := m), path, query, v);
  }

  lemma MethodThenTarget(r: Request, m: Method, text: bytes, rest: bytes)
    requires SPACE !in text && MethodOf(text) == m && m != Invalid
    ensures RequestLine(r, text + [SPACE] + rest) == Target(r.(verb := m), rest)
  {
    var line := text + [SPACE] + rest;
    FindIn(text, SPACE, rest);
    assert line[..|text|] == text && line[|text| + 1..] == rest;
  }

  lemma LineTextIsLine(m: Method, path: bytes, query: bytes, v: Version)
    requires ValidLine(m, path, query, v)
    ensures Line(LineText(m, path, query, v))
  {
    MethodRead(m);
    VersionRead(Request(m, v, path, query, map[]), v);
  }

  lemma SplitAt(s: bytes, k: nat)
    requires k < |s|
    ensures s == s[..k] + [s[k]] + s[k + 1..]
  {
  }

  lemma MethodAccepted(s: bytes)
    requires MethodOf(s) != Invalid
    ensures s == MethodText(MethodOf(s))
  {
  }

  lemma VersionAccepted(r: Request, s: bytes)
    requires ProtocolVersion(r, s).1
    ensures var v := ProtocolVersion(r, s).0.version;
            v != Unknown && s == VersionText(v) && ProtocolVersion(r, s).0 == r.(version := v)
  {
    assert s == s[..7] + [s[7]];
  }

  lemma TargetAccepted(r: Request, s: bytes) returns (path: bytes, query: bytes)
    requires Target(r, s).1
    ensures var q := Target(r, s).0;
            && q.version != Unknown && s == path + query + [SPACE] + VersionText(q.version)
            && SPACE !in path + query && QUESTION !in path && (query != [] ==> query[0] == QUESTION)
            && q == r.(path := path, query := if query == [] then r.query else query, version := q.version)
  {
    var space := Find(s, SPACE);
    var target := s[..space];
    var question := Find(target, QUESTION);
    path, query := target[..question], target[question..];
    SplitAt(s, space);
    assert target == path + query;
    if question < space {
      assert s[..question] == path && s[question..space] == query;
      VersionAccepted(r.(path := path, query := query), s[space + 1..]);
    } else {
      assert path == target;
      VersionAccepted(r.(path := path), s[space + 1..]);
    }
  }

  /** Only such lines are accepted: method, target and version with single spaces between, and the request says which. */
  lemma AcceptedLineIsWellFormed(r: Request, line: bytes) returns (path: bytes, query: bytes)
    requires RequestLine(r, line).1
    ensures var q := RequestLine(r, line).0;
            && q.verb != Invalid && q.version != Unknown && line == LineText(q.verb, path, query, q.version)
            && SPACE !in path + query && QUESTION !in path && (query != [] ==> query[0] == QUESTION)
            && q.path == path && q.query == (if query == [] then r.query else query) && q.headers == r.headers
  {
    var space := Find(line, SPACE);
    var m, rest := MethodOf(line[..space]), line[space + 1..];
    SplitAt(line, space);
    MethodAccepted(line[..space]);
    var r1 := r.(verb := m);
    assert RequestLine(r, line) == Target(r1, rest);
    path, query := TargetAccepted(r1, rest);
  }

  lemma {:induction false} TrimLeftBlank(b: bytes, s: bytes)
    requires Blank(b) && (s != [] ==> !IsSpace(s[0]))
    ensures TrimLeft(b + s) == s
    decreases b
  {
    if b == [] {
      assert b + s == s;
    } else {
      assert (b + s)[1..] == b[1..] + s;
      TrimLeftBlank(b[1..], s);
    }
  }

  lemma {:induction false} TrimRightBlank(s: bytes, b: bytes)
    requires Blank(b) && (s != [] ==> !IsSpace(s[|s| - 1]))
    ensures TrimRight(s + b) == s
    decreases b
  {
    if b == [] {
      assert s + b == s;
    } else {
      assert (s + b)[..|s + b| - 1] == s + b[..|b| - 1];
      TrimRightBlank(s, b[..|b| - 1]);
    }
  }

  lemma ValueTrimmed(f: HeaderField)
    requires ValidField(f)
    ensures TrimRight(TrimLeft(f.before + f.value + f.after)) == f.value
  {
    if f.value == [] {
      assert f.before + f.value + f.after == (f.before + f.after) + [];
      TrimLeftBlank(f.before + f.after, []);
    } else {
      assert f.before + f.value + f.after == f.before + (f.value + f.after);
      TrimLeftBlank(f.before, f.value + f.after);
      TrimRightBlank(f.value, f.after);
    }
  }

  lemma FieldRead(r: Request, f: HeaderField)
    requires ValidField(f)
    ensures var line, colon := FieldText(f), |f.name|;
            && Line(line) && Find(line, COLON) == colon
            && WithHeader(r, line, colon) == r.(headers := r.headers[f.name := f.value])
  {
    FindIn(f.name, COLON, f.before + f.value + f.after);
    var line := FieldText(f);
    assert line[..|f.name|] == f.name && line[|f.name| + 1..] == f.before + f.value + f.after;
    ValueTrimmed(f);
  }

  /** A line followed by CR LF is taken, and parsing goes on after it. */
  lemma LineParsed(ctx: Context, line: bytes, tail: bytes)
    requires Parsing(ctx) && Line(line)
    ensures var e, buf := TakeLine(ctx, line), line + CRLF + tail;
            e.ok ==> Parse(ctx, buf) == if e.more then Parse(e.ctx, tail) else Outcome(e.ctx, tail, true)
  {
    FindCRLFAfter(line, tail);
    var buf := line + CRLF + tail;
    assert buf[..|line|] == line && buf[|line| + 2..] == tail;
    ParseLine(ctx, buf, |line|);
  }

  lemma {:induction false} HeadersRead(r: Request, fs: seq<HeaderField>, rest: bytes)
    requires forall i :: 0 <= i < |fs| ==> ValidField(fs[i])
    ensures Parse(Context(ExpectHeaders, r), HeaderText(fs) + rest) ==
              Outcome(Context(GotAll, r.(headers := HeaderMap(r.headers, fs))), rest, true)
    decreases fs
  {
    var ctx, buf := Context(ExpectHeaders, r), HeaderText(fs) + rest;
    if fs == [] {
      assert buf == [] + CRLF + rest;
      LineParsed(ctx, [], rest);
    } else {
      var line, tail := FieldText(fs[0]), HeaderText(fs[1..]) + rest;
      assert buf == line + CRLF + tail;
      FieldRead(r, fs[0]);
      LineParsed(ctx, line, tail);
      HeadersRead(r.(headers := r.headers[fs[0].name := fs[0].value]), fs[1..], rest);
    }
  }

  /** A well-formed request, whatever follows it, is parsed to exactly its parts, leaving what follows. */
  lemma WellFormedRequestParsed(m: Method, path: bytes, query: bytes, v: Version, fs: seq<HeaderField>, rest: bytes)
    requires ValidLine(m, path, query, v) && forall i :: 0 <= i < |fs| ==> ValidField(fs[i])
    ensures Parse(Context(ExpectRequestLine, Request(Invalid, Unknown, [], [], map[])),
                  LineText(m, path, query, v) + CRLF + (HeaderText(fs) + rest)) ==
              Outcome(Context(GotAll, Request(m, v, path, query, HeaderMap(map[], fs))), rest, true)
  {
    var start := Request(Invalid, Unknown, [], [], map[]);
    var line, tail := LineText(m, path, query, v), HeaderText(fs) + rest;
    RequestLineRead(start, m, path, query, v);
    LineTextIsLine(m, path, query, v);
    LineParsed(Context(ExpectRequestLine, start), line, tail);
    HeadersRead(Request(m, v, path, query, map[]), fs, rest);
  }
}
