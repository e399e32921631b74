/** The incremental request parser: request line, headers, body. `Parse` is the
    meaning of one call of HttpContext::parse on the unread bytes; the class
    below it is the loop over the mutable buffer. */
module HttpContexts {
  import opened Basics
  import opened Buffers
  import opened HttpRequests

  datatype ParseState = ExpectRequestLine | ExpectHeaders | ExpectBody | GotAll | Error

  datatype Context = Context(state: ParseState, request: Request)

  const FRESH: Context := Context(ExpectRequestLine, EMPTY_REQUEST)

  // ---------------------------------------------------------------- one line

  function MethodOf(text: string): Method {
    if text == "GET" then Get
    else if text == "POST" then Post
    else if text == "PUT" then Put
    else if text == "DELETE" then Delete
    else if text == "HEAD" then Head
    else if text == "PATCH" then Patch
    else Invalid
  }

  /** The pieces around the first two spaces. */
  function SplitLine(line: string): Option<(string, string, string)> {
    var pos1 := IndexOf(line, ' ', 0);
    if pos1.None? then None else
    var pos2 := IndexOf(line, ' ', pos1.value + 1);
    if pos2.None? then None
    else Some((line[..pos1.value], line[pos1.value + 1..pos2.value], line[pos2.value + 1..]))
  }

  /** The method is set, and the target split at its first question mark; without
      one the query stays as it was. */
  function WithTarget(request: Request, verb: Method, uri: string): Request {
    var question := IndexOf(uri, '?', 0);
    if question.Some? then
      request.(verb := verb, path := uri[..question.value], query := uri[question.value + 1..])
    else
      request.(verb := verb, path := uri)
  }

  /** parseRequestLine: whether the line is accepted, and the request afterwards. A
      line refused for its version has already set verb, path and query. */
  function ParseRequestLine(request: Request, line: string): (bool, Request) {
    var parts := SplitLine(line);
    if parts.None? then (false, request) else
    var (verb, uri, version) := parts.value;
    if MethodOf(verb) == Invalid then (false, request) else
    var located := WithTarget(request, MethodOf(verb), uri);
    if version != "HTTP/1.0" && version != "HTTP/1.1" then (false, located)
    else (true, located.(version := version))
  }

  predicate IsBlank(c: char) { c == ' ' || c == '\t' }

  /** find_first_not_of(" \t"): the length of `s` when there is none. */
  function FirstNotBlank(s: string): (i: nat)
    ensures i <= |s| && forall k :: 0 <= k < i ==> IsBlank(s[k])
    ensures i < |s| ==> !IsBlank(s[i])
  {
    if s == [] || !IsBlank(s[0]) then 0 else 1 + FirstNotBlank(s[1..])
  }

  /** One past find_last_not_of(" \t"): zero when there is none. */
  function PastLastNotBlank(s: string): (i: nat)
    ensures i <= |s| && forall k :: i <= k < |s| ==> IsBlank(s[k])
    ensures i > 0 ==> !IsBlank(s[i - 1])
  {
    if s == [] then 0 else if !IsBlank(s[|s| - 1]) then |s| else PastLastNotBlank(s[..|s| - 1])
  }

  /** Both trims keep the value as it is when it holds nothing but blanks. */
  function Trim(value: string): string {
    var start := FirstNotBlank(value);
    var left := if start < |value| then value[start..] else value;
    var end := PastLastNotBlank(left);
    if end > 0 then left[..end] else left
  }

  /** The name and value a header line is read as. */
  function HeaderOf(line: string): Option<(string, string)> {
    var colon := IndexOf(line, ':', 0);
    if colon.None? then None else Some((line[..colon.value], Trim(line[colon.value + 1..])))
  }

  /** parseHeader: a later header of the same name replaces an earlier one. */
  function ParseHeader(headers: map<string, string>, line: string): Option<map<string, string>> {
    var header := HeaderOf(line);
    if header.None? then None else Some(headers[header.value.0 := header.value.1])
  }

  // ---------------------------------------------------------------- one turn

  /** What one turn of the loop does to the context and how many bytes it consumes;
      None when the turn has to wait for more bytes. */
  function Turn(c: Context, s: string): (r: Option<(Context, nat)>)
    requires c.state != GotAll && c.state != Error
    ensures r.Some? ==> r.value.1 <= |s|
    ensures r.Some? && r.value.0.state != Error ==> r.value.1 > 0 || c.state == ExpectBody
  {
    match c.state
    case ExpectRequestLine =>
      var pos := FindCRLF(s, 0);
      if pos.None? then None else
      var (ok, request) := ParseRequestLine(c.request, s[..pos.value]);
      if ok then Some((Context(ExpectHeaders, request), pos.value + 2))
      else Some((Context(Error, request), 0))
    case ExpectHeaders =>
      var pos := FindCRLF(s, 0);
      if pos.None? then None
      else if pos.value == 0 then
        Some((c.(state := if ContentLength(c.request.headers) > 0 then ExpectBody else GotAll), 2))
      else
        var parsed := ParseHeader(c.request.headers, s[..pos.value]);
        if parsed.None? then Some((c.(state := Error), 0))
        else Some((c.(request := c.request.(headers := parsed.value)), pos.value + 2))
    case ExpectBody =>
      var need := ContentLength(c.request.headers);
      if need <= 0 then Some((c.(state := GotAll), 0))
      else if |s| >= need then Some((Context(GotAll, c.request.(body := s[..need])), need))
      else None
  }

  function Rank(state: ParseState): nat {
    match state
    case ExpectRequestLine => 3
    case ExpectHeaders => 2
    case ExpectBody => 1
    case GotAll => 0
    case Error => 0
  }

  /** One call of parse: the context and the unread bytes it leaves. */
  function Parse(c: Context, s: string): (r: (Context, string))
    ensures |r.1| <= |s|
    decreases |s|, Rank(c.state)
  {
    if c.state == GotAll || c.state == Error then (c, s) else
    var turn := Turn(c, s);
    if turn.None? then (c, s) else Parse(turn.value.0, s[turn.value.1..])
  }

  // ------------------------------------------------------- chunk independence

  lemma TurnStable(c: Context, s: string, t: string)
    requires c.state != GotAll && c.state != Error && Turn(c, s).Some?
    ensures Turn(c, s + t) == Turn(c, s)
  {
    if c.state == ExpectBody {
      var need := ContentLength(c.request.headers);
      if need > 0 {
        assert (s + t)[..need] == s[..need];
      }
    } else {
      FindCRLFStable(s, t);
      var pos := FindCRLF(s, 0).value;
      assert (s + t)[..pos] == s[..pos];
    }
  }

  /** Parsing what has arrived and then the rest is parsing everything at once. */
  lemma {:induction false} ParseResumes(c: Context, s: string, t: string)
    ensures Parse(c, s + t) == Parse(Parse(c, s).0, Parse(c, s).1 + t)
    decreases |s|, Rank(c.state)
  {
    if c.state == GotAll || c.state == Error {
    } else {
      var turn := Turn(c, s);
      if turn.Some? {
        TurnStable(c, s, t);
        assert (s + t)[turn.value.1..] == s[turn.value.1..] + t;
        ParseResumes(turn.value.0, s[turn.value.1..], t);
      }
    }
  }

  /** Appending chunks one by one and parsing after each. */
  function Feed(c: Context, unread: string, chunks: seq<string>): (Context, string)
    decreases |chunks|
  {
    if chunks == [] then (c, unread) else
    var (next, rest) := Parse(c, unread + chunks[0]);
    Feed(next, rest, chunks[1..])
  }

  /** However the stream was cut up, one parse of the whole stream gives the same
      state, the same request and the same unread bytes. */
  lemma {:induction false} ChunkIndependence(c: Context, unread: string, chunks: seq<string>)
    ensures Parse(Feed(c, unread, chunks).0, Feed(c, unread, chunks).1) == Parse(c, unread + Flatten(chunks))
    ensures chunks != [] ==> Feed(c, unread, chunks) == Parse(c, unread + Flatten(chunks))
    decreases |chunks|
  {
    if chunks == [] {
      assert unread + Flatten(chunks) == unread;
    } else {
      var first := unread + chunks[0];
      var rest := Flatten(chunks[1..]);
      assert unread + Flatten(chunks) == first + rest;
      ParseResumes(c, first, rest);
      var (next, left) := Parse(c, first);
      ChunkIndependence(next, left, chunks[1..]);
      if chunks[1..] == [] {
        assert left + rest == left;
        ParseIdempotent(c, first);
      }
    }
  }

  /** A second parse without new bytes changes nothing. */
  lemma ParseIdempotent(c: Context, s: string)
    ensures Parse(Parse(c, s).0, Parse(c, s).1) == Parse(c, s)
  {
    ParseResumes(c, s, []);
    assert s + [] == s;
    assert Parse(c, s).1 + [] == Parse(c, s).1;
  }

  /** What a context that started fresh always satisfies: it waits for a body only
      when there is one to wait for. */
  predicate Consistent(c: Context) {
    c.state == ExpectBody ==> ContentLength(c.request.headers) > 0
  }

  /** A consistent context never takes the turn for a body of length zero or less:
      every turn that does not fail consumes bytes. */
  lemma TurnConsumes(c: Context, s: string)
    requires Consistent(c) && c.state != GotAll && c.state != Error && Turn(c, s).Some?
    ensures Consistent(Turn(c, s).value.0)
    ensures Turn(c, s).value.1 == 0 ==> Turn(c, s).value.0.state == Error
  {
  }

  lemma {:induction false} ParseKeepsConsistent(c: Context, s: string)
    requires Consistent(c)
    ensures Consistent(Parse(c, s).0)
    ensures Parse(c, s).0.state == GotAll && c.state != GotAll ==> |Parse(c, s).1| < |s|
    decreases |s|, Rank(c.state)
  {
    if c.state == GotAll || c.state == Error {
    } else {
      var turn := Turn(c, s);
      if turn.Some? {
        TurnConsumes(c, s);
        ParseKeepsConsistent(turn.value.0, s[turn.value.1..]);
      }
    }
  }

  // ------------------------------------------------------- the request line

  /** The grammar of an accepted request line, said without searching: a known
      verb, a target without spaces, one of two versions. */
  ghost predicate IsRequestLine(line: string, text: string, verb: Method, uri: string, version: string) {
    IsVerbLine(line, text, verb, uri, version) && IsVersion(version)
  }

  ghost predicate IsVerbLine(line: string, text: string, verb: Method, uri: string, version: string) {
    line == text + " " + uri + " " + version && IsVerb(text, verb) && ' ' !in uri
  }

  /** The verbs, each with its text. */
  predicate IsVerb(text: string, verb: Method) {
    || (text == "GET" && verb == Get)
    || (text == "POST" && verb == Post)
    || (text == "PUT" && verb == Put)
    || (text == "DELETE" && verb == Delete)
    || (text == "HEAD" && verb == Head)
    || (text == "PATCH" && verb == Patch)
  }

  predicate IsVersion(text: string) { text == "HTTP/1.0" || text == "HTTP/1.1" }

  lemma VerbRead(text: string, verb: Method)
    ensures IsVerb(text, verb) <==> MethodOf(text) == verb && verb != Invalid
    ensures IsVerb(text, verb) ==> ' ' !in text
  {
  }

  lemma SplitLineJoins(verb: string, uri: string, version: string)
    requires ' ' !in verb && ' ' !in uri
    ensures SplitLine(verb + " " + uri + " " + version) == Some((verb, uri, version))
  {
    var line := verb + " " + uri + " " + version;
    IndexOfIs(line, ' ', 0, |verb|);
    IndexOfIs(line, ' ', |verb| + 1, |verb| + 1 + |uri|);
    assert line[..|verb|] == verb;
    assert line[|verb| + 1..|verb| + 1 + |uri|] == uri;
    assert line[|verb| + 1 + |uri| + 1..] == version;
  }

  lemma SplitLineSplits(line: string)
    requires SplitLine(line).Some?
    ensures var (verb, uri, version) := SplitLine(line).value;
            line == verb + " " + uri + " " + version && ' ' !in uri
  {
  }

  /** A known verb's text, a space, a target without spaces, a space and anything: the verb is
      read as the one of its text, and the line is accepted if the rest is one of two versions. */
  lemma RequestLineRecognised(request: Request, line: string, text: string, verb: Method, uri: string,
                              version: string)
    requires IsVerbLine(line, text, verb, uri, version)
    ensures ParseRequestLine(request, line).1.verb == verb
    ensures IsVersion(version) ==>
              ParseRequestLine(request, line) == (true, WithTarget(request, verb, uri).(version := version))
    ensures !IsVersion(version) ==> ParseRequestLine(request, line) == (false, WithTarget(request, verb, uri))
  {
    VerbRead(text, verb);
    SplitLineJoins(text, uri, version);
    hide MethodOf, IsVerb, SplitLine;
  }

  /** A request line is accepted exactly when it has that form. */
  lemma RequestLineAccepted(request: Request, line: string)
    ensures ParseRequestLine(request, line).0 <==>
            exists text, verb, uri, version :: IsRequestLine(line, text, verb, uri, version)
  {
    if ParseRequestLine(request, line).0 {
      SplitLineSplits(line);
      var (text, uri, version) := SplitLine(line).value;
      VerbRead(text, MethodOf(text));
      assert IsRequestLine(line, text, MethodOf(text), uri, version);
    }
    if text, verb, uri, version :| IsRequestLine(line, text, verb, uri, version) {
      RequestLineRecognised(request, line, text, verb, uri, version);
    }
  }

  /** A line without a known verb and a target leaves the request as it was; one that only has
      a wrong version has set the verb and the target, and nothing else. */
  lemma RefusedLineLeaves(request: Request, line: string)
    ensures (forall text, verb, uri, version :: !IsVerbLine(line, text, verb, uri, version)) ==>
              ParseRequestLine(request, line) == (false, request)
    ensures forall text, verb, uri, version ::
              IsVerbLine(line, text, verb, uri, version) && !IsVersion(version) ==>
              ParseRequestLine(request, line) == (false, WithTarget(request, verb, uri))
  {
    if forall text, verb, uri, version :: !IsVerbLine(line, text, verb, uri, version) {
      if SplitLine(line).Some? {
        SplitLineSplits(line);
        var (text, uri, version) := SplitLine(line).value;
        VerbRead(text, MethodOf(text));
        assert !IsVerbLine(line, text, MethodOf(text), uri, version);
      }
    }
    forall text, verb, uri, version | IsVerbLine(line, text, verb, uri, version) && !IsVersion(version)
      ensures ParseRequestLine(request, line) == (false, WithTarget(request, verb, uri))
    {
      RequestLineRecognised(request, line, text, verb, uri, version);
    }
  }

  function Target(path: string, query: Option<string>): string {
    match query
    case None => path
    case Some(q) => path + "?" + q
  }

  lemma TargetRoundTrip(request: Request, verb: Method, path: string, query: Option<string>)
    requires '?' !in path
    ensures WithTarget(request, verb, Target(path, query))
            == request.(verb := verb, path := path, query := if query.Some? then query.value else request.query)
  {
    var uri := Target(path, query);
    if query.Some? {
      IndexOfIs(uri, '?', 0, |path|);
      assert uri[..|path|] == path && uri[|path| + 1..] == query.value;
    } else {
      assert IndexOf(uri, '?', 0).None?;
    }
  }

  /** A printed request line is read back field by field, its verb as the one of its text; a
      line without a query leaves the query as it was. */
  lemma RequestLineRoundTrip(request: Request, text: string, verb: Method, path: string, query: Option<string>,
                             version: string)
    requires IsVerb(text, verb) && IsVersion(version)
    requires ' ' !in path && '?' !in path && (query.Some? ==> ' ' !in query.value)
    ensures ParseRequestLine(request, text + " " + Target(path, query) + " " + version)
            == (true, Request(verb, path, version, if query.Some? then query.value else request.query,
                              request.body, request.headers))
  {
    hide IsVerb, ParseRequestLine;
    var uri := Target(path, query);
    RequestLineRecognised(request, text + " " + uri + " " + version, text, verb, uri, version);
    TargetRoundTrip(request, verb, path, query);
  }

  // ------------------------------------------------------- the header lines

  ghost predicate AllBlank(s: string) { forall k :: 0 <= k < |s| ==> s[k] == ' ' || s[k] == '\t' }

  /** Trimming takes the blanks off both ends, and keeps a value that is nothing but blanks. */
  lemma TrimStrips(before: string, value: string, after: string)
    requires AllBlank(before) && AllBlank(after)
    ensures Trimmed(value) ==> Trim(before + value + after) == value
    ensures value == "" ==> Trim(before + value + after) == before + after
  {
    var whole := before + value + after;
    if Trimmed(value) {
      FirstNotBlankIs(whole, |before|);
      var left := whole[|before|..];
      assert left == value + after;
      PastLastNotBlankIs(left, |value|);
      assert left[..|value|] == value;
    } else if value == "" {
      assert whole == before + after;
      assert forall k :: 0 <= k < |whole| ==> IsBlank(whole[k]);
      assert FirstNotBlank(whole) == |whole| && PastLastNotBlank(whole) == 0;
    }
  }

  /** Values with no blanks at their ends. */
  predicate Trimmed(value: string) {
    && value != "" && value[0] != ' ' && value[0] != '\t'
    && value[|value| - 1] != ' ' && value[|value| - 1] != '\t'
  }

  lemma FirstNotBlankIs(s: string, i: nat)
    requires i < |s| && !IsBlank(s[i]) && forall k :: 0 <= k < i ==> IsBlank(s[k])
    ensures FirstNotBlank(s) == i
  {
  }

  lemma PastLastNotBlankIs(s: string, i: nat)
    requires 0 < i <= |s| && !IsBlank(s[i - 1]) && forall k :: i <= k < |s| ==> IsBlank(s[k])
    ensures PastLastNotBlank(s) == i
  {
  }

  /** A line is a header exactly when it has a colon. */
  lemma HeaderIffColon(headers: map<string, string>, line: string)
    ensures ParseHeader(headers, line).Some? <==> ':' in line
  {
  }

  /** When the parser fails: a complete line is there and it is no request line, or a header
      line that is not blank and has no colon. Nothing else makes it fail. */
  lemma TurnFailsIff(c: Context, s: string)
    requires c.state != GotAll && c.state != Error
    ensures var at := FindCRLF(s, 0);
            (Turn(c, s).Some? && Turn(c, s).value.0.state == Error) <==>
            || (c.state == ExpectRequestLine && at.Some?
                && forall text, verb, uri, version :: !IsRequestLine(s[..at.value], text, verb, uri, version))
            || (c.state == ExpectHeaders && at.Some? && at.value > 0 && ':' !in s[..at.value])
  {
    var at := FindCRLF(s, 0);
    hide FindCRLF, ParseRequestLine, ParseHeader, ContentLength, IsRequestLine;
    if at.Some? {
      RequestLineAccepted(c.request, s[..at.value]);
      HeaderIffColon(c.request.headers, s[..at.value]);
    }
  }

  // ------------------------------------------------------- the parser object

  /** How a turn of the imperative loop matches `Turn`. */
  ghost predicate Turned(c: Context, s: string, more: bool, c': Context, s': string)
    requires c.state != GotAll && c.state != Error
  {
    var turn := Turn(c, s);
    if more then turn.Some? && c' == turn.value.0 && s' == s[turn.value.1..]
    else turn.None? && c' == c && s' == s
  }

  lemma LineMissing(c: Context, s: string)
    requires c.state == ExpectRequestLine || c.state == ExpectHeaders
    requires FindCRLF(s, 0).None?
    ensures Turned(c, s, false, c, s)
  {
  }

  lemma RequestLineTurned(c: Context, s: string, pos: nat, ok: bool, request: Request)
    requires c.state == ExpectRequestLine && FindCRLF(s, 0) == Some(pos)
    requires (ok, request) == ParseRequestLine(c.request, s[..pos])
    ensures Turned(c, s, true, Context(if ok then ExpectHeaders else Error, request), if ok then s[pos + 2..] else s)
  {
  }

  lemma BlankLineTurned(c: Context, s: string)
    requires c.state == ExpectHeaders && FindCRLF(s, 0) == Some(0)
    ensures Turned(c, s, true, c.(state := if ContentLength(c.request.headers) > 0 then ExpectBody else GotAll), s[2..])
  {
  }

  lemma HeaderTurned(c: Context, s: string, pos: nat)
    requires c.state == ExpectHeaders && FindCRLF(s, 0) == Some(pos) && pos > 0
    ensures var parsed := ParseHeader(c.request.headers, s[..pos]);
            if parsed.None? then Turned(c, s, true, c.(state := Error), s)
            else Turned(c, s, true, c.(request := c.request.(headers := parsed.value)), s[pos + 2..])
  {
  }

  lemma BodyTurned(c: Context, s: string)
    requires c.state == ExpectBody
    ensures var need := ContentLength(c.request.headers);
            if need <= 0 then Turned(c, s, true, c.(state := GotAll), s)
            else if |s| >= need then
              Turned(c, s, true, Context(GotAll, c.request.(body := s[..need])), s[need..])
            else Turned(c, s, false, c, s)
  {
  }

  lemma TurnedParses(c: Context, s: string, more: bool, c': Context, s': string)
    requires c.state != GotAll && c.state != Error && Turned(c, s, more, c', s')
    ensures Parse(c', s') == Parse(c, s)
    ensures !more ==> Parse(c, s) == (c', s')
    ensures more ==> |s'| < |s| || (|s'| == |s| && Rank(c'.state) < Rank(c.state))
  {
  }

  class HttpContext {
    var state: ParseState
    var request: Request

    ghost function View(): Context
      reads this
    {
      Context(state, request)
    }

    constructor ()
      ensures View() == FRESH
    {
      state := ExpectRequestLine;
      request := EMPTY_REQUEST;
    }

    method Reset()
      modifies this
      ensures View() == FRESH
    {
      state := ExpectRequestLine;
      request := EMPTY_REQUEST;
    }

    method AcceptRequestLine(line: string) returns (ok: bool)
      modifies this
      ensures (ok, request) == ParseRequestLine(old(request), line) && state == old(state)
    {
      var pos1 := IndexOf(line, ' ', 0);
      if pos1.None? {
        return false;
      }
      var methodStr := line[..pos1.value];
      var pos2 := IndexOf(line, ' ', pos1.value + 1);
      if pos2.None? {
        return false;
      }
      var uri := line[pos1.value + 1..pos2.value];
      var version := line[pos2.value + 1..];
      var verb := MethodOf(methodStr);
      if verb == Invalid {
        return false;
      }
      request := request.(verb := verb);
      var qpos := IndexOf(uri, '?', 0);
      if qpos.Some? {
        request := request.(path := uri[..qpos.value]);
        request := request.(query := uri[qpos.value + 1..]);
      } else {
        request := request.(path := uri);
      }
      if version != "HTTP/1.0" && version != "HTTP/1.1" {
        return false;
      }
      request := request.(version := version);
      return true;
    }

    method AcceptHeader(line: string) returns (ok: bool)
      modifies this
      ensures state == old(state)
      ensures ok == ParseHeader(old(request).headers, line).Some?
      ensures request == if ok then old(request).(headers := ParseHeader(old(request).headers, line).value)
                         else old(request)
    {
      var colon := IndexOf(line, ':', 0);
      if colon.None? {
        return false;
      }
      var key := line[..colon.value];
      var value := line[colon.value + 1..];
      var start := FirstNotBlank(value);
      if start < |value| {
        value := value[start..];
      }
      var endpos := PastLastNotBlank(value);
      if endpos > 0 {
        value := value[..endpos];
      }
      request := request.(headers := request.headers[key := value]);
      return true;
    }

    /** The branch for the request line; `more` is false when the line is not complete yet. */
    method TurnRequestLine(buf: Buffer) returns (more: bool)
      requires buf.Valid() && state == ExpectRequestLine
      modifies this, buf
      ensures buf.Valid() && buf.store == old(buf.store)
      ensures Turned(old(View()), old(buf.Contents()), more, View(), buf.Contents())
    {
      hide Turned, FindCRLF, ParseRequestLine;
      ghost var c, s := View(), buf.Contents();
      var pos := buf.FindLineEnd();
      if pos.None? {
        LineMissing(c, s);
        return false;
      }
      var line := buf.Peek(pos.value);
      var ok := AcceptRequestLine(line);
      RequestLineTurned(c, s, pos.value, ok, request);
      if !ok {
        state := Error;
        return true;
      }
      buf.Retrieve(pos.value + 2);
      state := ExpectHeaders;
      return true;
    }

    /** The branch for a header line or the blank line that ends the headers. */
    method TurnHeader(buf: Buffer) returns (more: bool)
      requires buf.Valid() && state == ExpectHeaders
      modifies this, buf
      ensures buf.Valid() && buf.store == old(buf.store)
      ensures Turned(old(View()), old(buf.Contents()), more, View(), buf.Contents())
    {
      hide Turned, FindCRLF, ParseHeader, ContentLength;
      ghost var c, s := View(), buf.Contents();
      var pos := buf.FindLineEnd();
      if pos.None? {
        LineMissing(c, s);
        return false;
      }
      if pos.value == 0 {
        BlankLineTurned(c, s);
        buf.Retrieve(2);
        var contentLen := GetContentLength(request);
        if contentLen > 0 {
          state := ExpectBody;
        } else {
          state := GotAll;
        }
        return true;
      }
      var line := buf.Peek(pos.value);
      HeaderTurned(c, s, pos.value);
      var ok := AcceptHeader(line);
      if !ok {
        state := Error;
        return true;
      }
      buf.Retrieve(pos.value + 2);
      return true;
    }

    /** The branch for the body. */
    method TurnBody(buf: Buffer) returns (more: bool)
      requires buf.Valid() && state == ExpectBody
      modifies this, buf
      ensures buf.Valid() && buf.store == old(buf.store)
      ensures Turned(old(View()), old(buf.Contents()), more, View(), buf.Contents())
    {
      hide Turned, ContentLength;
      ghost var c, s := View(), buf.Contents();
      BodyTurned(c, s);
      var need := GetContentLength(request);
      if need <= 0 {
        state := GotAll;
        return true;
      }
      if buf.ReadableBytes() >= need {
        var body := buf.Peek(need);
        request := request.(body := body);
        buf.Retrieve(need);
        state := GotAll;
        return true;
      }
      return false;
    }

    /** HttpContext::parse: turns until the request is complete, refused, or short of bytes. */
    method ParseBuffer(buf: Buffer) returns (complete: bool)
      requires buf.Valid()
      modifies this, buf
      ensures buf.Valid() && buf.store == old(buf.store)
      ensures (View(), buf.Contents()) == Parse(old(View()), old(buf.Contents()))
      ensures complete == (state == GotAll)
    {
      ghost var goal := Parse(View(), buf.Contents());
      while state != GotAll && state != Error
        invariant buf.Valid() && buf.store == old(buf.store)
        invariant Parse(View(), buf.Contents()) == goal
        decreases |buf.Contents()|, Rank(state)
      {
        ghost var c, s := View(), buf.Contents();
        var more: bool;
        if state == ExpectRequestLine {
          more := TurnRequestLine(buf);
        } else if state == ExpectHeaders {
          more := TurnHeader(buf);
        } else {
          more := TurnBody(buf);
        }
        TurnedParses(c, s, more, View(), buf.Contents());
        if !more {
          break;
        }
      }
      return state == GotAll;
    }

    /** The chunks of a stream, appended one by one with a parse after each, end
        where one parse of the whole stream ends. */
    method ParseStream(buf: Buffer, chunks: seq<string>) returns (complete: bool)
      requires buf.Valid()
      modifies this, buf, buf.store
      ensures buf.Valid()
      ensures chunks != [] ==>
                (View(), buf.Contents()) == Parse(old(View()), old(buf.Contents()) + Flatten(chunks))
      ensures complete == (state == GotAll)
    {
      ChunkIndependence(View(), buf.Contents(), chunks);
      ghost var goal := Feed(View(), buf.Contents(), chunks);
      complete := state == GotAll;
      for i := 0 to |chunks|
        invariant buf.Valid() && (buf.store == old(buf.store) || fresh(buf.store))
        invariant Feed(View(), buf.Contents(), chunks[i..]) == goal
        invariant complete == (state == GotAll)
      {
        assert chunks[i..][0] == chunks[i] && chunks[i..][1..] == chunks[i + 1..];
        buf.Append(chunks[i]);
        complete := ParseBuffer(buf);
      }
    }
  }
}
