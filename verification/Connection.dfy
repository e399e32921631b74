/** One TCP connection: read events feed the parser, sends and writable events
    drain the output buffer. `Input` and `Output` are the two halves as values. */
module Connections {
  import opened Basics
  import opened Decimal
  import opened Buffers
  import opened HttpRequests
  import opened HttpContexts
  import opened HttpResponses

  // ---------------------------------------------------------------- input

  datatype Input = Input(context: Context, unread: string, dispatched: seq<Request>)

  const NEW_INPUT: Input := Input(FRESH, "", [])

  /** A read event that delivered bytes: one call of parse, at most one dispatch. */
  function ReadStep(i: Input, data: string): Input {
    var (c, rest) := Parse(i.context, i.unread + data);
    if c.state == GotAll then Input(FRESH, rest, i.dispatched + [c.request])
    else Input(c, rest, i.dispatched)
  }

  function ReadAll(i: Input, segments: seq<string>): Input
    decreases |segments|
  {
    if segments == [] then i else ReadAll(ReadStep(i, segments[0]), segments[1..])
  }

  /** The requests a parser of the whole stream yields: parse, restart, parse again. */
  ghost function AllRequests(c: Context, s: string): (r: seq<Request>)
    requires Consistent(c) && c.state != GotAll
    decreases |s|
  {
    ParseKeepsConsistent(c, s);
    var (next, rest) := Parse(c, s);
    if next.state == GotAll then [next.request] + AllRequests(FRESH, rest) else []
  }

  ghost predicate Resting(i: Input) { Consistent(i.context) && i.context.state != GotAll }

  lemma ReadStepRests(i: Input, data: string)
    requires Resting(i)
    ensures Resting(ReadStep(i, data))
  {
    ParseKeepsConsistent(i.context, i.unread + data);
  }

  /** What a read event dispatches is what the whole-stream parser meets next. */
  lemma ReadStepFollows(i: Input, data: string, later: string)
    requires Resting(i)
    ensures Resting(ReadStep(i, data))
    ensures var after := ReadStep(i, data);
            i.dispatched + AllRequests(i.context, i.unread + data + later)
            == after.dispatched + AllRequests(after.context, after.unread + later)
  {
    hide Parse;
    var s := i.unread + data;
    var (c, rest) := Parse(i.context, s);
    ReadStepRests(i, data);
    ParseResumes(i.context, s, later);
    assert i.unread + data + later == s + later;
    if c.state == GotAll {
      GotAllParses(c.request, rest + later);
      assert AllRequests(i.context, s + later) == [c.request] + AllRequests(FRESH, rest + later);
    } else {
      SameParseSameRequests(i.context, s + later, c, rest + later);
    }
  }

  lemma SameParseSameRequests(c: Context, s: string, d: Context, t: string)
    requires Consistent(c) && c.state != GotAll && Consistent(d) && d.state != GotAll
    ensures Parse(c, s) == Parse(d, t) ==> AllRequests(c, s) == AllRequests(d, t)
  {
    hide Parse;
  }

  /** For every way the network cuts the stream, the dispatched requests followed by those
      still obtainable from the unread bytes are the requests of the whole stream. */
  lemma {:induction false} DispatchIsPrefix(i: Input, segments: seq<string>)
    requires Resting(i)
    ensures Resting(ReadAll(i, segments))
    ensures var after := ReadAll(i, segments);
            i.dispatched + AllRequests(i.context, i.unread + Flatten(segments))
            == after.dispatched + AllRequests(after.context, after.unread)
    decreases |segments|
  {
    if segments == [] {
      assert i.unread + Flatten(segments) == i.unread;
    } else {
      var later := Flatten(segments[1..]);
      assert i.unread + Flatten(segments) == i.unread + segments[0] + later;
      ReadStepFollows(i, segments[0], later);
      DispatchIsPrefix(ReadStep(i, segments[0]), segments[1..]);
    }
  }

  ghost predicate IsSuffix(t: string, s: string) { |t| <= |s| && s[|s| - |t|..] == t }

  lemma SuffixTransitive(a: string, b: string, c: string)
    requires IsSuffix(a, b) && IsSuffix(b, c)
    ensures IsSuffix(a, c)
  {
    assert c[|c| - |a|..] == c[|c| - |b|..][|b| - |a|..];
  }

  lemma {:induction false} ParseLeavesSuffix(c: Context, s: string)
    ensures IsSuffix(Parse(c, s).1, s)
    decreases |s|, Rank(c.state)
  {
    hide Turn, IsSuffix;
    assert IsSuffix(s, s) by { SuffixReflexive(s); }
    if c.state == GotAll || c.state == Error {
    } else {
      var turn := Turn(c, s);
      if turn.Some? {
        TurnDecreases(c, s);
        ParseLeavesSuffix(turn.value.0, s[turn.value.1..]);
        DropIsSuffix(s, turn.value.1);
        SuffixTransitive(Parse(c, s).1, s[turn.value.1..], s);
      }
    }
  }

  lemma TurnDecreases(c: Context, s: string)
    requires c.state != GotAll && c.state != Error && Turn(c, s).Some?
    ensures Turn(c, s).value.1 > 0 || Rank(Turn(c, s).value.0.state) < Rank(c.state)
  {
  }

  lemma SuffixReflexive(s: string)
    ensures IsSuffix(s, s)
  {
    assert s[0..] == s;
  }

  lemma DropIsSuffix(s: string, n: nat)
    requires n <= |s|
    ensures IsSuffix(s[n..], s)
  {
  }

  /** The bytes a parse has consumed. */
  ghost function Consumed(c: Context, s: string): string {
    ParseLeavesSuffix(c, s);
    s[..|s| - |Parse(c, s).1|]
  }

  lemma LineEndInside(s: string, k: nat)
    requires FindCRLF(s, 0).Some? && FindCRLF(s, 0).value + 2 <= k <= |s|
    ensures FindCRLF(s[..k], 0) == FindCRLF(s, 0)
  {
    var at := FindCRLF(s, 0).value;
    forall i | 0 <= i < at
      ensures !CRLFAt(s[..k], i)
    {
      assert !CRLFAt(s, i);
    }
    FindCRLFIs(s[..k], at);
  }

  lemma TurnNeedsItsBytes(c: Context, s: string, k: nat)
    requires c.state != GotAll && c.state != Error && Turn(c, s).Some? && Turn(c, s).value.0.state != Error
    requires Turn(c, s).value.1 <= k <= |s|
    ensures Turn(c, s[..k]) == Turn(c, s)
  {
    hide ParseRequestLine, ParseHeader, ContentLength, FindCRLF;
    if c.state == ExpectBody {
      var n := Turn(c, s).value.1;
      assert s[..k][..n] == s[..n];
    } else {
      LineEndInside(s, k);
      var at := FindCRLF(s, 0).value;
      assert s[..k][..at] == s[..at];
    }
  }

  /** A parse that takes a turn goes on from there; one that cannot stays where it is. */
  lemma ParseTurn(c: Context, s: string)
    requires c.state != GotAll && c.state != Error
    ensures Turn(c, s).Some? ==> Parse(c, s) == Parse(Turn(c, s).value.0, s[Turn(c, s).value.1..])
    ensures Turn(c, s).Some? && Turn(c, s).value.0.state == Error ==> Parse(c, s).0.state == Error
    ensures Turn(c, s).None? ==> Parse(c, s) == (c, s)
  {
    hide Turn;
  }

  lemma NothingToParse(c: Context, s: string)
    requires c.state != GotAll && c.state != Error && Turn(c, s).None?
    ensures Turn(c, "").None?
  {
    hide ContentLength;
  }

  /** The consumed bytes alone lead to the same context, unless that is the error. */
  lemma {:induction false} ConsumedSuffices(c: Context, s: string)
    ensures Parse(c, s).0.state != Error ==> Parse(c, Consumed(c, s)) == (Parse(c, s).0, "")
    decreases |s|, Rank(c.state)
  {
    hide Parse, Turn;
    ParseLeavesSuffix(c, s);
    var piece := Consumed(c, s);
    if c.state == GotAll {
      GotAllParses(c.request, s);
      GotAllParses(c.request, piece);
    } else if c.state == Error {
      ErrorParses(c, s);
    } else if Turn(c, s).None? {
      ParseTurn(c, s);
      NothingToParse(c, s);
      ParseTurn(c, piece);
    } else {
      var (c', n) := Turn(c, s).value;
      ParseTurn(c, s);
      ParseLeavesSuffix(c', s[n..]);
      TurnDecreases(c, s);
      ConsumedSuffices(c', s[n..]);
      if c'.state != Error {
        TurnNeedsItsBytes(c, s, |piece|);
        ParseTurn(c, piece);
        assert piece[n..] == Consumed(c', s[n..]);
      }
    }
  }

  lemma ErrorParses(c: Context, s: string)
    requires c.state == Error
    ensures Parse(c, s) == (c, s)
  {
  }

  /** A stream cut where its parts belong: one piece for each dispatched request, which
      alone parses to exactly that request; then the bytes of the request in progress,
      which alone lead to the context reached; then the unread bytes. */
  ghost predicate IsCut(i: Input, received: string, pieces: seq<string>, partial: string) {
    && |pieces| == |i.dispatched|
    && (forall k :: 0 <= k < |pieces| ==> Parse(FRESH, pieces[k]) == (Context(GotAll, i.dispatched[k]), ""))
    && (i.context.state != Error ==> Parse(FRESH, partial) == (i.context, ""))
    && Flatten(pieces) + partial + i.unread == received
    && Parse(FRESH, partial + i.unread) == Parse(i.context, i.unread)
  }

  lemma CutGoesOn(i: Input, received: string, pieces: seq<string>, partial: string, data: string)
    returns (pieces': seq<string>, partial': string)
    requires IsCut(i, received, pieces, partial)
    ensures IsCut(ReadStep(i, data), received + data, pieces', partial')
  {
    hide Parse, Consumed, Flatten;
    var whole := partial + (i.unread + data);
    SameContinuation(i, partial, data);
    var (c, rest) := Parse(FRESH, whole);
    var piece := Consumed(FRESH, whole);
    ConsumedAndRest(FRESH, whole);
    CutBytes(received, pieces, partial, i.unread, data, piece, rest);
    if c.state == GotAll {
      pieces', partial' := pieces + [piece], "";
      NothingOfFresh();
      assert "" + rest == rest;
    } else {
      pieces', partial' := pieces, piece;
    }
  }

  lemma ConsumedAndRest(c: Context, s: string)
    ensures Consumed(c, s) + Parse(c, s).1 == s
    ensures Parse(c, s).0.state != Error ==> Parse(c, Consumed(c, s)) == (Parse(c, s).0, "")
    ensures Parse(c, s) == Parse(Parse(c, s).0, Parse(c, s).1)
  {
    ParseLeavesSuffix(c, s);
    ConsumedSuffices(c, s);
    ParseIdempotent(c, s);
    hide Parse;
  }

  lemma CutBytes(received: string, pieces: seq<string>, partial: string, unread: string, data: string,
                 piece: string, rest: string)
    requires Flatten(pieces) + partial + unread == received && piece + rest == partial + (unread + data)
    ensures Flatten(pieces) + piece + rest == received + data
    ensures Flatten(pieces + [piece]) + "" + rest == received + data
  {
    FlattenSnoc(pieces, piece);
    hide Flatten;
    assert Flatten(pieces) + piece + rest == Flatten(pieces) + (piece + rest);
    assert Flatten(pieces) + (partial + (unread + data)) == Flatten(pieces) + partial + unread + data;
    assert Flatten(pieces) + piece + "" + rest == Flatten(pieces) + piece + rest;
  }

  lemma NothingOfFresh()
    ensures Parse(FRESH, "") == (FRESH, "")
  {
  }

  lemma SameContinuation(i: Input, partial: string, data: string)
    ensures Parse(FRESH, partial + i.unread) == Parse(i.context, i.unread) ==>
              Parse(FRESH, partial + (i.unread + data)) == Parse(i.context, i.unread + data)
  {
    ParseResumes(FRESH, partial + i.unread, data);
    ParseResumes(i.context, i.unread, data);
    hide Parse;
    assert partial + (i.unread + data) == partial + i.unread + data;
  }

  lemma {:induction false} ReadAllIsCut(i: Input, received: string, pieces: seq<string>, partial: string,
                                        segments: seq<string>)
    returns (pieces': seq<string>, partial': string)
    requires IsCut(i, received, pieces, partial)
    ensures IsCut(ReadAll(i, segments), received + Flatten(segments), pieces', partial')
    ensures |ReadAll(i, segments).dispatched| <= |i.dispatched| + |segments|
    decreases |segments|
  {
    hide IsCut;
    if segments == [] {
      pieces', partial' := pieces, partial;
      assert received + Flatten(segments) == received;
    } else {
      pieces', partial' := CutGoesOn(i, received, pieces, partial, segments[0]);
      pieces', partial' :=
        ReadAllIsCut(ReadStep(i, segments[0]), received + segments[0], pieces', partial', segments[1..]);
      assert received + segments[0] + Flatten(segments[1..]) == received + Flatten(segments);
    }
  }

  /** No byte is lost, invented or put to another use on the way in: for every sequence of
      read events, all bytes received are the bytes of the dispatched requests, one piece
      each, those of the request in progress, and the unread ones. Each event dispatches at
      most one request. */
  lemma InputConserved(segments: seq<string>) returns (pieces: seq<string>, partial: string)
    ensures IsCut(ReadAll(NEW_INPUT, segments), Flatten(segments), pieces, partial)
    ensures |ReadAll(NEW_INPUT, segments).dispatched| <= |segments|
  {
    NothingOfFresh();
    assert "" + "" == "" && "" + Flatten(segments) == Flatten(segments);
    hide Parse;
    pieces, partial := ReadAllIsCut(NEW_INPUT, "", [], "", segments);
  }

  /** Parse, restart, parse again until no request completes: where the input comes to rest. */
  ghost function Settle(c: Context, s: string): (Context, string)
    requires Consistent(c) && c.state != GotAll
    decreases |s|
  {
    ParseKeepsConsistent(c, s);
    var (next, rest) := Parse(c, s);
    if next.state == GotAll then Settle(FRESH, rest) else (next, rest)
  }

  lemma SameParseSettlesAlike(c: Context, s: string, d: Context, t: string)
    requires Consistent(c) && c.state != GotAll && Consistent(d) && d.state != GotAll
    ensures Parse(c, s) == Parse(d, t) ==> Settle(c, s) == Settle(d, t)
  {
    hide Parse;
  }

  lemma ReadStepSettlesAlike(i: Input, data: string, later: string)
    requires Resting(i)
    ensures Resting(ReadStep(i, data))
    ensures var after := ReadStep(i, data);
            Settle(i.context, i.unread + data + later) == Settle(after.context, after.unread + later)
  {
    hide Parse;
    var s := i.unread + data;
    var (c, rest) := Parse(i.context, s);
    ReadStepRests(i, data);
    ParseResumes(i.context, s, later);
    assert i.unread + data + later == s + later;
    if c.state == GotAll {
      GotAllParses(c.request, rest + later);
    } else {
      SameParseSettlesAlike(i.context, s + later, c, rest + later);
    }
  }

  /** However the network cuts the stream, the input comes to rest where the whole stream
      does: in the same state, with the same request in progress, or the same error, and
      the same bytes left over. */
  lemma {:induction false} SettlesAlike(i: Input, segments: seq<string>)
    requires Resting(i)
    ensures Resting(ReadAll(i, segments))
    ensures var after := ReadAll(i, segments);
            Settle(i.context, i.unread + Flatten(segments)) == Settle(after.context, after.unread)
    decreases |segments|
  {
    if segments == [] {
      assert i.unread + Flatten(segments) == i.unread;
    } else {
      var later := Flatten(segments[1..]);
      assert i.unread + Flatten(segments) == i.unread + segments[0] + later;
      ReadStepSettlesAlike(i, segments[0], later);
      hide Settle;
      SettlesAlike(ReadStep(i, segments[0]), segments[1..]);
    }
  }

  /** What one read event does with the requests the bytes at hand make up: the first is
      dispatched, and the others wait for another event. */
  lemma PipelinedRequestsWait(i: Input, data: string)
    requires Resting(i)
    ensures Resting(ReadStep(i, data))
    ensures var all := AllRequests(i.context, i.unread + data);
            var after := ReadStep(i, data);
            && after.dispatched == i.dispatched + all[..Min(1, |all|)]
            && AllRequests(after.context, after.unread) == all[Min(1, |all|)..]
  {
    ReadStepRests(i, data);
    ParseIdempotent(i.context, i.unread + data);
    hide Parse;
  }

  /** So nothing complete waits unseen if and only if the bytes at hand make up at most one request. */
  lemma NothingWaitsIff(i: Input, data: string)
    requires Resting(i)
    ensures Resting(ReadStep(i, data))
    ensures AllRequests(ReadStep(i, data).context, ReadStep(i, data).unread) == []
            <==> |AllRequests(i.context, i.unread + data)| <= 1
  {
    PipelinedRequestsWait(i, data);
    hide ReadStep, AllRequests;
  }

  /** Two printed requests in one segment: only the first is dispatched. */
  lemma TwoInOneSegment(text: string, verb: Method, path: string, query: Option<string>, version: string,
                        list: seq<Header>, body: string, second: string)
    requires Printable(text, verb, path, query, version, list, body)
    ensures ReadStep(NEW_INPUT, RequestText(text, path, query, version, list, body) + second)
            == Input(FRESH, second, [Request(verb, path, version, if query.Some? then query.value else "",
                                             body, Store(map[], list))])
  {
    hide Parse;
    RequestRoundTrip(text, verb, path, query, version, list, body, second);
    var data := RequestText(text, path, query, version, list, body) + second;
    assert "" + data == data;
  }

  // ---------------------------------------------------------------- output

  datatype Output = Output(
    buffer: string,       // outputBuffer_
    writing: bool,        // write interest registered with epoll
    closed: bool,         // the close callback has run
    wire: string,         // bytes the socket has taken
    sent: seq<string>)    // messages, in the order of sendInLoop

  const NEW_OUTPUT: Output := Output("", false, false, "", [])

  /** sendInLoop. */
  function SendStep(o: Output, message: string, outcome: WriteOutcome): Output
    requires outcome.Accepted? ==> outcome.count <= |o.buffer| + |message|
  {
    var all := o.buffer + message;
    var queued := o.(buffer := all, sent := o.sent + [message]);
    if o.writing then queued
    else match outcome
      case WouldBlock => queued.(writing := true)
      case WriteFailed => queued.(closed := true)
      case Accepted(n) => queued.(wire := o.wire + all[..n], buffer := all[n..], writing := n < |all|)
  }

  /** handleWrite. */
  function WritableStep(o: Output, outcome: WriteOutcome): Output
    requires outcome.Accepted? ==> outcome.count <= |o.buffer|
  {
    if o.buffer == "" then o.(writing := false)
    else match outcome
      case WouldBlock => o
      case WriteFailed => o.(closed := true)
      case Accepted(n) => o.(wire := o.wire + o.buffer[..n], buffer := o.buffer[n..],
                             writing := o.writing && n < |o.buffer|)
  }

  predicate OutputInvariant(o: Output) {
    && o.wire + o.buffer == Flatten(o.sent)
    && (!o.closed && o.buffer != "" ==> o.writing)
  }

  lemma SendKeepsInvariant(o: Output, message: string, outcome: WriteOutcome)
    requires OutputInvariant(o) && (outcome.Accepted? ==> outcome.count <= |o.buffer| + |message|)
    ensures OutputInvariant(SendStep(o, message, outcome))
  {
    var all := o.buffer + message;
    FlattenSnoc(o.sent, message);
    assert o.wire + all == o.wire + o.buffer + message;
    if !o.writing && outcome.Accepted? {
      assert o.wire + all[..outcome.count] + all[outcome.count..] == o.wire + all;
    }
  }

  lemma WritableKeepsInvariant(o: Output, outcome: WriteOutcome)
    requires OutputInvariant(o) && (outcome.Accepted? ==> outcome.count <= |o.buffer|)
    ensures OutputInvariant(WritableStep(o, outcome))
  {
    if o.buffer != "" && outcome.Accepted? {
      assert o.wire + o.buffer[..outcome.count] + o.buffer[outcome.count..] == o.wire + o.buffer;
    }
  }

  /** The output side closes the connection exactly when a write is made and fails, and the
      socket takes exactly what a write that was made reports; a send writes when there is no
      write interest, a writable event when there is something to write. */
  lemma SendWrites(o: Output, message: string, outcome: WriteOutcome)
    requires outcome.Accepted? ==> outcome.count <= |o.buffer| + |message|
    ensures SendStep(o, message, outcome).closed <==> o.closed || (!o.writing && outcome.WriteFailed?)
    ensures |SendStep(o, message, outcome).wire|
            == |o.wire| + if !o.writing && outcome.Accepted? then outcome.count else 0
  {
  }

  lemma WritableWrites(o: Output, outcome: WriteOutcome)
    requires outcome.Accepted? ==> outcome.count <= |o.buffer|
    ensures WritableStep(o, outcome).closed <==> o.closed || (o.buffer != "" && outcome.WriteFailed?)
    ensures |WritableStep(o, outcome).wire| == |o.wire| + if outcome.Accepted? then outcome.count else 0
    ensures WritableStep(o, outcome).sent == o.sent
  {
  }

  /** An open connection waits for the socket exactly while it has bytes left. */
  predicate InterestIsExact(o: Output) { !o.closed ==> (o.writing <==> o.buffer != "") }

  /** Every send of some bytes and every writable event makes write interest exact; an empty
      send only fails to keep it when the socket refuses the empty write. */
  lemma InterestBecomesExact(o: Output, message: string, outcome: WriteOutcome)
    requires OutputInvariant(o)
    ensures (outcome.Accepted? ==> outcome.count <= |o.buffer| + |message|) && message != "" ==>
              InterestIsExact(SendStep(o, message, outcome))
    ensures (outcome.Accepted? ==> outcome.count <= |o.buffer|) ==> InterestIsExact(WritableStep(o, outcome))
    ensures (outcome.Accepted? ==> outcome.count <= |o.buffer|) && InterestIsExact(o) && !o.closed ==>
              (InterestIsExact(SendStep(o, "", outcome)) <==> o.writing || !outcome.WouldBlock?)
  {
    assert o.buffer + "" == o.buffer;
  }

  // ---------------------------------------------------------- the connection

  function StatusText(code: int): (string, string) {
    if code == 400 then ("Bad Request", "Bad Request")
    else if code == 404 then ("Not Found", "Not Found")
    else ("Internal Server Error", "Internal Server Error")
  }

  function FixedResponse(code: int, message: string, body: string): string {
    StatusLine(code, message)
    + (Lines([(CONTENT_LENGTH, IntToString(|body|)), ("Connection", "close")]) + (CRLF + body))
  }

  /** The text sendErrorResponse prints. */
  function ErrorResponse(code: int): string {
    FixedResponse(code, StatusText(code).0, StatusText(code).1)
  }

  lemma FixedResponseReadsBack(code: int, message: string, body: string, more: string)
    requires |body| <= INT_MAX
    ensures var headers := map[CONTENT_LENGTH := IntToString(|body|), "Connection" := "close"];
            && StatusLine(code, message) <= FixedResponse(code, message, body)
            && Parse(Context(ExpectHeaders, EMPTY_REQUEST),
                     FixedResponse(code, message, body)[|StatusLine(code, message)|..] + more)
               == (Context(GotAll, EMPTY_REQUEST.(headers := headers, body := body)), more)
  {
    hide IntToString, StatusLine, Line, Lines, OneLine, Trimmed, Parse, Store, ContentLength;
    var first, second := (CONTENT_LENGTH, IntToString(|body|)), ("Connection", "close");
    ErrorHeaders(|body|);
    TwoHeadersStored(first, second);
    DeclaredLength(first.1, |body|, second);
    BlockThenMore([first, second], body, more);
  }

  /** The text of an error, which is both its message and its body. */
  predicate IsErrorText(code: int, text: string) {
    || (code == 400 && text == "Bad Request")
    || (code == 404 && text == "Not Found")
    || (code != 400 && code != 404 && text == "Internal Server Error")
  }

  /** The fixed responses declare their own length: behind the status line with the code and
      its text, exactly the two headers and the text are read back, and what follows stays
      unread. */
  lemma ErrorResponseReadsBack(code: int, text: string, more: string)
    requires IsErrorText(code, text)
    ensures var headers := map["Content-Length" := IntToString(|text|), "Connection" := "close"];
            && StatusLine(code, text) <= ErrorResponse(code)
            && Parse(Context(ExpectHeaders, EMPTY_REQUEST), ErrorResponse(code)[|StatusLine(code, text)|..] + more)
               == (Context(GotAll, EMPTY_REQUEST.(headers := headers, body := text)), more)
  {
    assert StatusText(code) == (text, text) && |text| <= INT_MAX;
    hide FixedResponse, StatusText, StatusLine, IntToString, Parse;
    FixedResponseReadsBack(code, text, text, more);
  }

  lemma DeclaredLength(value: string, length: nat, other: Header)
    requires value == IntToString(length) && length <= INT_MAX && other.0 != CONTENT_LENGTH
    ensures ContentLength(map[CONTENT_LENGTH := value, other.0 := other.1]) == length
  {
    LengthRoundTrip(length);
    hide LengthOfValue, IntToString;
  }

  lemma TwoHeadersStored(first: Header, second: Header)
    ensures first.0 != second.0 ==> DistinctNames([first, second])
    ensures Store(map[], [first, second]) == map[first.0 := first.1, second.0 := second.1]
  {
    assert [first, second][1..] == [second] && [second][1..] == [];
    assert Store(map[first.0 := first.1, second.0 := second.1], []) == map[first.0 := first.1, second.0 := second.1];
  }

  lemma ErrorHeaders(length: nat)
    ensures OneLine((CONTENT_LENGTH, IntToString(length))) && Trimmed(IntToString(length))
    ensures OneLine(("Connection", "close")) && Trimmed("close")
  {
    AutomaticValues(length);
    NoReturnNoCRLF(IntToString(length));
    NoReturnNoCRLF(CONTENT_LENGTH);
    NoReturnNoCRLF("Connection");
    NoReturnNoCRLF("close");
  }

  /** Whether a read event completes a request. */
  predicate Dispatches(i: Input, data: string) { Parse(i.context, i.unread + data).0.state == GotAll }

  /** A read event whose request callback may throw: then the parser keeps the request. */
  function AfterRead(i: Input, data: string, throws: bool): Input {
    if throws && Dispatches(i, data) then ReadStep(i, data).(context := Parse(i.context, i.unread + data).0)
    else ReadStep(i, data)
  }

  /** A parser left with its request dispatches the same request again at the next event, and
      leaves the new bytes unread. */
  lemma ThrowingCallbackRepeats(i: Input, data: string, more: string)
    requires Dispatches(i, data)
    ensures var after := AfterRead(i, data, true);
            && after.dispatched == ReadStep(i, data).dispatched
            && ReadStep(after, more) == Input(FRESH, after.unread + more, after.dispatched + [after.context.request])
            && after.context.request == after.dispatched[|i.dispatched|]
  {
    var (c, rest) := Parse(i.context, i.unread + data);
    GotAllParses(c.request, rest + more);
    hide Parse;
  }

  /** A send and what the socket does with it. */
  datatype Answer = Answer(message: string, outcome: WriteOutcome)

  ghost predicate AnswersFit(o: Output, answers: seq<Answer>)
    decreases |answers|
  {
    answers == [] ||
    var a := answers[0];
    (a.outcome.Accepted? ==> a.outcome.count <= |o.buffer| + |a.message|)
    && AnswersFit(SendStep(o, a.message, a.outcome), answers[1..])
  }

  ghost function SendAll(o: Output, answers: seq<Answer>): Output
    requires AnswersFit(o, answers)
    decreases |answers|
  {
    if answers == [] then o else SendAll(SendStep(o, answers[0].message, answers[0].outcome), answers[1..])
  }

  lemma {:induction false} SendAllKeepsInvariant(o: Output, answers: seq<Answer>)
    requires OutputInvariant(o) && AnswersFit(o, answers)
    ensures OutputInvariant(SendAll(o, answers))
    ensures SendAll(o, answers).sent == o.sent + Spoken(answers)
    decreases |answers|
  {
    hide OutputInvariant, SendStep;
    if answers == [] {
      assert o.sent + Spoken(answers) == o.sent;
    } else {
      var (message, outcome) := (answers[0].message, answers[0].outcome);
      var rest := answers[1..];
      var next := SendStep(o, message, outcome);
      SendKeepsInvariant(o, message, outcome);
      SendIsCounted(o, message, outcome);
      SendAllKeepsInvariant(next, rest);
      SpokenFirst(answers);
      hide Spoken, AnswersFit;
      assert o.sent + [message] + Spoken(rest) == o.sent + ([message] + Spoken(rest));
    }
  }

  /** Whether one of the sends makes a write that fails. */
  ghost predicate SomeWriteFails(o: Output, answers: seq<Answer>)
    requires AnswersFit(o, answers)
    decreases |answers|
  {
    answers != [] &&
    ((!o.writing && answers[0].outcome.WriteFailed?)
     || SomeWriteFails(SendStep(o, answers[0].message, answers[0].outcome), answers[1..]))
  }

  /** The sends of a callback close the connection exactly when one of their writes fails. */
  lemma {:induction false} SendAllClosesIff(o: Output, answers: seq<Answer>)
    requires AnswersFit(o, answers)
    ensures SendAll(o, answers).closed <==> o.closed || SomeWriteFails(o, answers)
    decreases |answers|
  {
    if answers == [] {
    } else {
      SendAllClosesIff(SendStep(o, answers[0].message, answers[0].outcome), answers[1..]);
    }
  }

  lemma SpokenFirst(answers: seq<Answer>)
    requires answers != []
    ensures Spoken(answers) == [answers[0].message] + Spoken(answers[1..])
  {
  }

  lemma SendIsCounted(o: Output, message: string, outcome: WriteOutcome)
    requires outcome.Accepted? ==> outcome.count <= |o.buffer| + |message|
    ensures SendStep(o, message, outcome).sent == o.sent + [message]
  {
  }

  function Spoken(answers: seq<Answer>): seq<string> {
    if answers == [] then [] else [answers[0].message] + Spoken(answers[1..])
  }

  class Connection {
    const inputBuffer: Buffer
    const outputBuffer: Buffer
    const httpContext: HttpContext
    var dispatched: seq<Request>     // handed to the request callback
    var writing: bool
    var closed: bool
    ghost var wire: string
    ghost var sent: seq<string>

    ghost predicate Valid()
      reads this, inputBuffer, outputBuffer
    {
      && inputBuffer != outputBuffer
      && inputBuffer.store != outputBuffer.store
      && inputBuffer.Valid() && outputBuffer.Valid()
    }

    ghost function InputView(): Input
      requires Valid()
      reads this, inputBuffer, outputBuffer, inputBuffer.store, httpContext
    {
      Input(httpContext.View(), inputBuffer.Contents(), dispatched)
    }

    ghost function OutputView(): Output
      requires Valid()
      reads this, inputBuffer, outputBuffer, outputBuffer.store
    {
      Output(outputBuffer.Contents(), writing, closed, wire, sent)
    }

    constructor ()
      ensures Valid() && InputView() == NEW_INPUT && OutputView() == NEW_OUTPUT
      ensures fresh(inputBuffer) && fresh(outputBuffer) && fresh(httpContext)
      ensures fresh(inputBuffer.store) && fresh(outputBuffer.store)
    {
      inputBuffer := new Buffer(INITIAL_SIZE);
      outputBuffer := new Buffer(INITIAL_SIZE);
      httpContext := new HttpContext();
      dispatched, writing, closed, wire, sent := [], false, false, "", [];
    }

    method SendInLoop(message: string, outcome: WriteOutcome)
      requires Valid()
      requires outcome.Accepted? ==> outcome.count <= |outputBuffer.Contents()| + |message|
      modifies this, outputBuffer, outputBuffer.store
      ensures Valid() && (outputBuffer.store == old(outputBuffer.store) || fresh(outputBuffer.store))
      ensures OutputView() == SendStep(old(OutputView()), message, outcome)
      ensures closed <==> old(closed) || (!old(writing) && outcome.WriteFailed?)
      ensures InputView() == old(InputView())
    {
      ghost var before := outputBuffer.Contents();
      sent := sent + [message];
      outputBuffer.Append(message);
      if !writing {
        match outcome {
          case WouldBlock => writing := true;
          case WriteFailed => closed := true;
          case Accepted(n) =>
            wire := wire + outputBuffer.Contents()[..n];
            outputBuffer.Retrieve(n);
            if outputBuffer.ReadableBytes() > 0 {
              writing := true;
            }
        }
      }
    }

    method HandleWrite(outcome: WriteOutcome)
      requires Valid()
      requires outcome.Accepted? ==> outcome.count <= |outputBuffer.Contents()|
      modifies this, outputBuffer
      ensures Valid() && outputBuffer.store == old(outputBuffer.store)
      ensures OutputView() == WritableStep(old(OutputView()), outcome)
      ensures closed <==> old(closed) || (old(outputBuffer.Contents()) != "" && outcome.WriteFailed?)
      ensures InputView() == old(InputView())
    {
      if outputBuffer.ReadableBytes() == 0 {
        writing := false;
        return;
      }
      match outcome {
        case WouldBlock =>
        case WriteFailed => closed := true;
        case Accepted(n) =>
          wire := wire + outputBuffer.Contents()[..n];
          outputBuffer.Retrieve(n);
          if outputBuffer.ReadableBytes() == 0 {
            writing := false;
          }
      }
    }

    /** A read event. `reply` is what the socket does with the error response, if one is
        sent; `answers` are the sends the request callback makes, and `throws` tells whether
        it then throws, as when the thread pool refuses the request. The exception passes
        through: the parser is not reset. */
    method HandleRead(outcome: ReadOutcome, reply: WriteOutcome, answers: seq<Answer>, throws: bool)
      returns (returned: bool)
      requires Valid()
      requires outcome.Received? ==> |outcome.data| <= inputBuffer.ReadCapacity()
      requires reply.Accepted? ==> reply.count <= |outputBuffer.Contents()| + |ErrorResponse(400)|
      requires AnswersFit(OutputView(), answers)
      modifies this, inputBuffer, inputBuffer.store, outputBuffer, outputBuffer.store, httpContext
      ensures Valid()
      ensures outcome.ReadFailed? || outcome.data == "" ==>
                InputView() == old(InputView()) && OutputView() == old(OutputView()).(closed := true) && returned
      ensures outcome.Received? && outcome.data != "" ==>
                && InputView() == AfterRead(old(InputView()), outcome.data, throws)
                && (returned <==> !(throws && Dispatches(old(InputView()), outcome.data)))
                && OutputView() ==
                   if InputView().context.state == Error
                   then SendStep(old(OutputView()), ErrorResponse(400), reply).(closed := true)
                   else if Dispatches(old(InputView()), outcome.data) then SendAll(old(OutputView()), answers)
                   else old(OutputView())
      ensures closed <==> || old(closed) || outcome.ReadFailed? || outcome.data == ""
                          || InputView().context.state == Error
                          || (Dispatches(old(InputView()), outcome.data)
                              && SomeWriteFails(old(OutputView()), answers))
    {
      hide Parse, SendStep, ErrorResponse, AnswersFit, SendAll, SomeWriteFails;
      var n := inputBuffer.ReadFd(outcome);
      if n < 0 {
        closed := true;
        return true;
      } else if n == 0 {
        assert inputBuffer.Contents() == old(inputBuffer.Contents());
        closed := true;
        return true;
      }
      var complete := httpContext.ParseBuffer(inputBuffer);
      if httpContext.state == Error {
        SendInLoop(ErrorResponse(400), reply);
        closed := true;
        return true;
      }
      if complete {
        returned := Dispatch(answers, throws);
      } else {
        returned := true;
      }
    }

    /** The request callback, and the reset of the parser when it returns. */
    method Dispatch(answers: seq<Answer>, throws: bool) returns (returned: bool)
      requires Valid() && AnswersFit(OutputView(), answers)
      modifies this, outputBuffer, outputBuffer.store, httpContext
      ensures Valid() && (outputBuffer.store == old(outputBuffer.store) || fresh(outputBuffer.store))
      ensures OutputView() == SendAll(old(OutputView()), answers) && returned == !throws
      ensures closed <==> old(closed) || SomeWriteFails(old(OutputView()), answers)
      ensures var i := old(InputView());
              InputView() == Input(if throws then i.context else FRESH, i.unread, i.dispatched + [i.context.request])
    {
      SendAllClosesIff(OutputView(), answers);
      hide AnswersFit, SendAll, SomeWriteFails;
      dispatched := dispatched + [httpContext.request];
      Answers(answers);
      if throws {
        return false;
      }
      httpContext.Reset();
      return true;
    }

    /** What the request callback sends on the loop thread: each send runs at once. */
    method Answers(answers: seq<Answer>)
      requires Valid() && AnswersFit(OutputView(), answers)
      modifies this, outputBuffer, outputBuffer.store
      ensures Valid() && (outputBuffer.store == old(outputBuffer.store) || fresh(outputBuffer.store))
      ensures OutputView() == SendAll(old(OutputView()), answers)
      ensures InputView() == old(InputView())
    {
      hide SendStep;
      for k := 0 to |answers|
        invariant Valid() && (outputBuffer.store == old(outputBuffer.store) || fresh(outputBuffer.store))
        invariant AnswersFit(OutputView(), answers[k..])
        invariant SendAll(OutputView(), answers[k..]) == SendAll(old(OutputView()), answers)
        invariant InputView() == old(InputView())
      {
        var answer := answers[k];
        assert answers[k..][0] == answer && answers[k..][1..] == answers[k + 1..];
        SendInLoop(answer.message, answer.outcome);
      }
    }
  }
}
