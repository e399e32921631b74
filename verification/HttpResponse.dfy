/** The response printer, and the exact condition under which the request parser
    reads back what it printed. */
module HttpResponses {
  import opened Basics
  import opened Decimal
  import opened Buffers
  import opened HttpRequests
  import opened HttpContexts

  type Header = (string, string)

  function StatusMessageOf(code: int): string {
    if code == 200 then "OK"
    else if code == 201 then "Created"
    else if code == 204 then "No Content"
    else if code == 301 then "Moved Permanently"
    else if code == 302 then "Found"
    else if code == 400 then "Bad Request"
    else if code == 403 then "Forbidden"
    else if code == 404 then "Not Found"
    else if code == 405 then "Method Not Allowed"
    else if code == 413 then "Payload Too Large"
    else if code == 500 then "Internal Server Error"
    else if code == 501 then "Not Implemented"
    else "Unknown"
  }

  /** The codes that have a message, each with it. */
  predicate HasMessage(code: int, message: string) {
    || (code == 200 && message == "OK") || (code == 201 && message == "Created")
    || (code == 204 && message == "No Content") || (code == 301 && message == "Moved Permanently")
    || (code == 302 && message == "Found") || (code == 400 && message == "Bad Request")
    || (code == 403 && message == "Forbidden") || (code == 404 && message == "Not Found")
    || (code == 405 && message == "Method Not Allowed") || (code == 413 && message == "Payload Too Large")
    || (code == 500 && message == "Internal Server Error") || (code == 501 && message == "Not Implemented")
  }

  /** Each of these codes gets its message, every other code "Unknown". */
  lemma MessageOfCode(code: int, message: string)
    ensures HasMessage(code, message) ==> StatusMessageOf(code) == message
    ensures !HasMessage(code, StatusMessageOf(code)) ==> StatusMessageOf(code) == "Unknown"
  {
  }

  function StatusLine(code: int, message: string): string {
    "HTTP/1.1 " + IntToString(code) + " " + message + CRLF
  }

  function Line(header: Header): string { header.0 + ": " + header.1 + CRLF }

  function Lines(list: seq<Header>): string {
    if list == [] then "" else Line(list[0]) + Lines(list[1..])
  }

  lemma {:induction false} LinesAppend(a: seq<Header>, b: seq<Header>)
    ensures Lines(a + b) == Lines(a) + Lines(b)
  {
    if a == [] {
      assert a + b == b;
    } else {
      assert (a + b)[1..] == a[1..] + b;
      LinesAppend(a[1..], b);
    }
  }

  lemma LinesSnoc(list: seq<Header>, header: Header)
    ensures Lines(list + [header]) == Lines(list) + Line(header)
  {
    LinesAppend(list, [header]);
    assert [header][1..] == [];
    assert Lines([header]) == Line(header) + Lines([]);
  }

  const CONTENT_TYPE: string := "Content-Type"
  const SERVER: string := "Server"

  function LengthHeader(headers: map<string, string>, body: string): seq<Header> {
    if body != "" && CONTENT_LENGTH !in headers then [(CONTENT_LENGTH, IntToString(|body|))] else []
  }

  function TypeHeader(headers: map<string, string>, body: string): seq<Header> {
    if body != "" && CONTENT_TYPE !in headers then [(CONTENT_TYPE, "text/plain")] else []
  }

  function ServerHeader(headers: map<string, string>): seq<Header> {
    if SERVER !in headers then [(SERVER, "MyCppServer/1.0")] else []
  }

  /** The headers serialize adds by itself, in the order it adds them. */
  function Automatic(headers: map<string, string>, body: string): seq<Header> {
    LengthHeader(headers, body) + TypeHeader(headers, body) + ServerHeader(headers)
  }

  predicate DistinctNames(list: seq<Header>) {
    forall i, j :: 0 <= i < j < |list| ==> list[i].0 != list[j].0
  }

  predicate Names(list: seq<Header>, name: string) { exists i :: 0 <= i < |list| && list[i].0 == name }

  /** The list walks the map once, except for the names in `rest`. */
  ghost predicate IsPartialListing(list: seq<Header>, headers: map<string, string>, rest: set<string>) {
    && DistinctNames(list)
    && (forall i :: 0 <= i < |list| ==>
          list[i].0 in headers && list[i].0 !in rest && headers[list[i].0] == list[i].1)
    && (forall name :: name in headers && name !in rest ==> Names(list, name))
  }

  /** One iteration order of the header map. */
  ghost predicate IsListing(list: seq<Header>, headers: map<string, string>) {
    IsPartialListing(list, headers, {})
  }

  lemma ListingGrows(list: seq<Header>, headers: map<string, string>, rest: set<string>, name: string)
    requires IsPartialListing(list, headers, rest) && name in rest && name in headers
    ensures IsPartialListing(list + [(name, headers[name])], headers, rest - {name})
  {
    var grown := list + [(name, headers[name])];
    assert grown[|list|].0 == name;
    forall other | other in headers && other !in rest
      ensures Names(grown, other)
    {
      assert Names(list, other);
      var i :| 0 <= i < |list| && list[i].0 == other;
      assert grown[i].0 == other;
    }
  }

  lemma NothingListed(headers: map<string, string>)
    ensures IsPartialListing([], headers, headers.Keys) && Lines([]) == ""
  {
  }

  class HttpResponse {
    var statusCode: int
    var statusMessage: string
    var body: string
    var headers: map<string, string>

    constructor ()
      ensures statusCode == 200 && statusMessage == "OK" && body == "" && headers == map[]
    {
      statusCode, statusMessage, body, headers := 200, "OK", "", map[];
    }

    method SetHeader(key: string, value: string)
      modifies `headers
      ensures headers == old(headers)[key := value]
    {
      headers := headers[key := value];
    }

    method SetStatusCode(code: int)
      modifies `statusCode, `statusMessage
      ensures statusCode == code
      ensures HasMessage(code, statusMessage)
              || (statusMessage == "Unknown" && forall message :: !HasMessage(code, message))
    {
      statusCode := code;
      statusMessage := StatusMessageOf(code);
    }

    method SetBody(text: string)
      modifies `body
      ensures body == text
    {
      body := text;
    }

    /** The printed response; `listing` is the order in which the map was walked. */
    method Serialize() returns (result: string, listing: seq<Header>)
      ensures IsListing(listing, headers)
      ensures result == StatusLine(statusCode, statusMessage)
                        + (Lines(listing + Automatic(headers, body)) + CRLF + body)
    {
      hide IsPartialListing, Line, Lines, Automatic;
      result := StatusLine(statusCode, statusMessage);
      listing := [];
      ghost var start := result;
      var rest := headers.Keys;
      NothingListed(headers);
      while rest != {}
        invariant rest <= headers.Keys
        invariant IsPartialListing(listing, headers, rest)
        invariant result == start + Lines(listing)
        decreases rest
      {
        var name :| name in rest;
        ListingGrows(listing, headers, rest, name);
        LinesSnoc(listing, (name, headers[name]));
        result := result + Line((name, headers[name]));
        listing := listing + [(name, headers[name])];
        rest := rest - {name};
      }
      result := AppendAutomatic(result, start, listing);
      result := result + CRLF;
      result := result + body;
    }

    method AppendAutomatic(text: string, ghost start: string, ghost listing: seq<Header>) returns (result: string)
      requires text == start + Lines(listing)
      ensures result == start + Lines(listing + Automatic(headers, body))
    {
      hide Line, Lines, IntToString;
      result := text;
      ghost var list := listing;
      if body != "" && CONTENT_LENGTH !in headers {
        result := result + Line((CONTENT_LENGTH, IntToString(|body|)));
        LinesSnoc(list, (CONTENT_LENGTH, IntToString(|body|)));
      }
      assert list + [] == list;
      list := list + LengthHeader(headers, body);
      if body != "" && CONTENT_TYPE !in headers {
        result := result + Line((CONTENT_TYPE, "text/plain"));
        LinesSnoc(list, (CONTENT_TYPE, "text/plain"));
      }
      assert list + [] == list;
      list := list + TypeHeader(headers, body);
      if SERVER !in headers {
        result := result + Line((SERVER, "MyCppServer/1.0"));
        LinesSnoc(list, (SERVER, "MyCppServer/1.0"));
      }
      assert list + [] == list;
      list := list + ServerHeader(headers);
      assert list == listing + Automatic(headers, body);
    }
  }

  // -------------------------------------------------------------- one header

  lemma PrintedValueKept(value: string)
    ensures Trim(" " + value) == value <==> Trimmed(value)
  {
    var printed := " " + value;
    var start := FirstNotBlank(printed);
    if Trimmed(value) {
      FirstNotBlankIs(printed, 1);
      assert printed[1..] == value;
      assert PastLastNotBlank(value) == |value|;
      assert value[..|value|] == value;
    } else if value != "" {
      if start < |printed| {
        assert start > 0;
        var left := printed[start..];
        assert !IsBlank(left[0]) && PastLastNotBlank(left) > 0;
      } else {
        assert |Trim(printed)| == |printed| || PastLastNotBlank(printed) > 0;
      }
    }
  }

  /** A printed header is read back exactly when its name has no colon and its value is trimmed. */
  lemma HeaderRoundTrip(name: string, value: string)
    ensures HeaderOf(name + ": " + value) == Some((name, value)) <==> ':' !in name && Trimmed(value)
    ensures ':' !in name ==> HeaderOf(name + ": " + value) == Some((name, Trim(" " + value)))
  {
    hide Trim, Trimmed;
    var line := name + ": " + value;
    PrintedValueKept(value);
    if ':' !in name {
      IndexOfIs(line, ':', 0, |name|);
      assert line[..|name|] == name && line[|name| + 1..] == " " + value;
    } else {
      var i :| 0 <= i < |name| && name[i] == ':';
      assert line[i] == ':';
      assert IndexOf(line, ':', 0).value <= i;
    }
  }

  // ------------------------------------------------------------ many headers

  function Store(headers: map<string, string>, list: seq<Header>): map<string, string>
    decreases |list|
  {
    if list == [] then headers else Store(headers[list[0].0 := list[0].1], list[1..])
  }

  /** The list as the parser reads it: every value printed after a space and trimmed. */
  function Reread(list: seq<Header>): (r: seq<Header>)
    ensures |r| == |list|
  {
    seq(|list|, i requires 0 <= i < |list| => (list[i].0, Trim(" " + list[i].1)))
  }

  ghost predicate OneLine(header: Header) {
    ':' !in header.0 && !HasCRLF(header.0) && !HasCRLF(header.1)
  }

  lemma LineEndsThere(header: Header, tail: string)
    requires OneLine(header)
    ensures FindCRLF(Line(header) + tail, 0) == Some(|header.0| + 2 + |header.1|)
  {
    var s := Line(header) + tail;
    var at := |header.0| + 2 + |header.1|;
    forall i | 0 <= i < at
      ensures !CRLFAt(s, i)
    {
      assert !CRLFAt(header.0, i);
      assert !CRLFAt(header.1, i - |header.0| - 2);
    }
    FindCRLFIs(s, at);
  }

  lemma HeaderTurn(request: Request, s: string, pos: nat, header: Header)
    requires pos > 0 && FindCRLF(s, 0) == Some(pos) && HeaderOf(s[..pos]) == Some(header)
    ensures Turn(Context(ExpectHeaders, request), s)
            == Some((Context(ExpectHeaders, request.(headers := request.headers[header.0 := header.1])), pos + 2))
  {
  }

  lemma ParseLine(request: Request, header: Header, tail: string)
    requires OneLine(header)
    ensures Parse(Context(ExpectHeaders, request), Line(header) + tail)
            == Parse(Context(ExpectHeaders,
                             request.(headers := request.headers[header.0 := Trim(" " + header.1)])), tail)
  {
    hide Turn, HeaderOf, Trim, FindCRLF, HasCRLF;
    var s := Line(header) + tail;
    var pos := |header.0| + 2 + |header.1|;
    LineEndsThere(header, tail);
    HeaderRoundTrip(header.0, header.1);
    assert s[..pos] == header.0 + ": " + header.1;
    assert s[pos + 2..] == tail;
    HeaderTurn(request, s, pos, (header.0, Trim(" " + header.1)));
  }

  /** The parser works through printed headers one line at a time. */
  lemma {:induction false} ParseLines(request: Request, list: seq<Header>, tail: string)
    requires forall i :: 0 <= i < |list| ==> OneLine(list[i])
    ensures Parse(Context(ExpectHeaders, request), Lines(list) + tail)
            == Parse(Context(ExpectHeaders, request.(headers := Store(request.headers, Reread(list)))), tail)
    decreases |list|
  {
    hide Parse, Trim, OneLine, Line;
    if list == [] {
      assert Lines(list) + tail == tail;
    } else {
      var header := list[0];
      var next := request.(headers := request.headers[header.0 := Trim(" " + header.1)]);
      assert Lines(list) + tail == Line(header) + (Lines(list[1..]) + tail);
      ParseLine(request, header, Lines(list[1..]) + tail);
      ParseLines(next, list[1..], tail);
      assert Reread(list)[1..] == Reread(list[1..]);
    }
  }

  lemma {:induction false} StoreLookup(headers: map<string, string>, list: seq<Header>)
    requires DistinctNames(list)
    ensures forall i :: 0 <= i < |list| ==>
              list[i].0 in Store(headers, list) && Store(headers, list)[list[i].0] == list[i].1
    ensures forall name :: name in Store(headers, list) <==> name in headers || Names(list, name)
    ensures forall name :: name in headers && !Names(list, name) ==> Store(headers, list)[name] == headers[name]
    decreases |list|
  {
    if list == [] {
    } else {
      var next := headers[list[0].0 := list[0].1];
      StoreLookup(next, list[1..]);
      forall name
        ensures Names(list, name) <==> name == list[0].0 || Names(list[1..], name)
      {
        if Names(list[1..], name) {
          var i :| 0 <= i < |list[1..]| && list[1..][i].0 == name;
          assert list[i + 1].0 == name;
        }
        if Names(list, name) && name != list[0].0 {
          var i :| 0 <= i < |list| && list[i].0 == name;
          assert list[1..][i - 1].0 == name;
        }
      }
      assert !Names(list[1..], list[0].0);
      assert forall i :: 1 <= i < |list| ==> list[i] == list[1..][i - 1];
    }
  }

  /** Of several headers with one name, in the order they were read, the last one counts. */
  lemma {:induction false} LastHeaderWins(headers: map<string, string>, list: seq<Header>, i: nat)
    requires i < |list| && forall k :: i < k < |list| ==> list[k].0 != list[i].0
    ensures list[i].0 in Store(headers, list) && Store(headers, list)[list[i].0] == list[i].1
    decreases |list|
  {
    var next, rest := headers[list[0].0 := list[0].1], list[1..];
    if i > 0 {
      assert forall k :: 0 <= k < |rest| ==> rest[k] == list[k + 1];
      LastHeaderWins(next, rest, i - 1);
    } else {
      NotListedStays(next, rest, list[0].0);
    }
  }

  lemma {:induction false} NotListedStays(headers: map<string, string>, list: seq<Header>, name: string)
    requires name in headers && forall k :: 0 <= k < |list| ==> list[k].0 != name
    ensures name in Store(headers, list) && Store(headers, list)[name] == headers[name]
    decreases |list|
  {
    if list == [] {
    } else {
      NotListedStays(headers[list[0].0 := list[0].1], list[1..], name);
    }
  }

  /** So does the parser: header lines that each fit on a line leave for a name the trimmed value
      of its last line. */
  lemma ParserKeepsLastHeader(request: Request, list: seq<Header>, i: nat)
    requires i < |list| && forall k :: i < k < |list| ==> list[k].0 != list[i].0
    requires forall k :: 0 <= k < |list| ==> OneLine(list[k])
    ensures var after := Parse(Context(ExpectHeaders, request), Lines(list)).0;
            && after.state == ExpectHeaders
            && list[i].0 in after.request.headers
            && after.request.headers[list[i].0] == Trim(" " + list[i].1)
  {
    hide Trim, OneLine, Lines, Store;
    ParseLines(request, list, "");
    assert Lines(list) + "" == Lines(list);
    assert forall k :: 0 <= k < |list| ==> Reread(list)[k].0 == list[k].0;
    LastHeaderWins(request.headers, Reread(list), i);
  }

  /** With distinct names, the reread list makes the same map exactly when every value is trimmed. */
  lemma RereadKeepsMap(list: seq<Header>)
    requires DistinctNames(list)
    ensures Store(map[], Reread(list)) == Store(map[], list) <==>
            forall i :: 0 <= i < |list| ==> Trimmed(list[i].1)
  {
    hide Trim, Trimmed;
    forall i | 0 <= i < |list|
      ensures Reread(list)[i] == list[i] <==> Trimmed(list[i].1)
      ensures Reread(list)[i].0 == list[i].0
    {
      PrintedValueKept(list[i].1);
    }
    if forall i :: 0 <= i < |list| ==> Trimmed(list[i].1) {
      assert Reread(list) == list;
    } else {
      var i :| 0 <= i < |list| && !Trimmed(list[i].1);
      DistinctStores(list, Reread(list), i);
    }
  }

  lemma DistinctStores(a: seq<Header>, b: seq<Header>, i: nat)
    requires DistinctNames(a) && |a| == |b| && i < |a|
    requires forall k :: 0 <= k < |a| ==> a[k].0 == b[k].0
    requires a[i] != b[i]
    ensures Store(map[], a) != Store(map[], b)
  {
    StoreLookup(map[], a);
    StoreLookup(map[], b);
    assert Store(map[], a)[a[i].0] == a[i].1;
    assert Store(map[], b)[b[i].0] == b[i].1;
  }

  // ------------------------------------------- what the parser can ever store

  ghost predicate Clean(headers: map<string, string>) {
    forall name :: name in headers ==> OneLine((name, headers[name]))
  }

  lemma SliceHasNoCRLF(s: string, i: nat, j: nat)
    requires i <= j <= |s| && !HasCRLF(s)
    ensures !HasCRLF(s[i..j])
  {
    forall k | 0 <= k < j - i
      ensures !CRLFAt(s[i..j], k)
    {
      assert !CRLFAt(s, i + k);
    }
  }

  lemma TrimIsSlice(value: string)
    ensures exists i: nat, j: nat :: i <= j <= |value| && Trim(value) == value[i..j]
  {
    var start := FirstNotBlank(value);
    var from: nat := if start < |value| then start else 0;
    var left := value[from..];
    var end := PastLastNotBlank(left);
    var to: nat := if end > 0 then from + end else |value|;
    assert Trim(value) == value[from..to];
  }

  lemma TrimHasNoCRLF(value: string)
    requires !HasCRLF(value)
    ensures !HasCRLF(Trim(value))
  {
    TrimIsSlice(value);
    hide Trim, HasCRLF;
    var i: nat, j: nat :| i <= j <= |value| && Trim(value) == value[i..j];
    SliceHasNoCRLF(value, i, j);
  }

  lemma HeaderStaysClean(headers: map<string, string>, line: string)
    requires Clean(headers) && !HasCRLF(line) && ParseHeader(headers, line).Some?
    ensures Clean(ParseHeader(headers, line).value)
  {
    hide Trim, HasCRLF;
    var colon := IndexOf(line, ':', 0).value;
    var value := line[colon + 1..];
    SliceHasNoCRLF(line, 0, colon);
    assert line[0..colon] == line[..colon];
    SliceHasNoCRLF(line, colon + 1, |line|);
    assert line[colon + 1..|line|] == value;
    TrimHasNoCRLF(value);
    hide IndexOf;
  }

  /** No byte stream makes the parser store a name with a colon, or a line end anywhere. */
  lemma {:induction false} ParsedHeadersAreClean(c: Context, s: string)
    requires Clean(c.request.headers)
    ensures Clean(Parse(c, s).0.request.headers)
    decreases |s|, Rank(c.state)
  {
    if c.state == GotAll || c.state == Error {
    } else {
      var turn := Turn(c, s);
      if turn.Some? {
        if c.state == ExpectHeaders && turn.value.0.request != c.request {
          var pos := FindCRLF(s, 0).value;
          if HasCRLF(s[..pos]) {
            var k :| CRLFAt(s[..pos], k);
            assert CRLFAt(s, k);
          }
          HeaderStaysClean(c.request.headers, s[..pos]);
        }
        ParsedHeadersAreClean(turn.value.0, s[turn.value.1..]);
      }
    }
  }

  // ------------------------------------------------------------- the body

  /** From the blank line on: the body is recovered exactly when the declared
      length, read as zero when there is none, is its length. */
  lemma ParseBody(request: Request, body: string)
    requires request.body == ""
    ensures Parse(Context(ExpectHeaders, request), CRLF + body)
            == (Context(GotAll, request.(body := body)), "")
            <==> Max(ContentLength(request.headers), 0) == |body|
    ensures Parse(Context(ExpectHeaders, request), CRLF + body).0.request.headers == request.headers
  {
    var s := CRLF + body;
    var need := ContentLength(request.headers);
    FindCRLFIs(s, 0);
    assert s[2..] == body;
    if need > 0 {
      var waiting := Context(ExpectBody, request);
      assert Parse(Context(ExpectHeaders, request), s) == Parse(waiting, body);
      if |body| >= need {
        assert Parse(waiting, body) == (Context(GotAll, request.(body := body[..need])), body[need..]);
        assert need == |body| ==> body[..need] == body;
      } else {
        assert Parse(waiting, body) == (waiting, body);
      }
    } else {
      assert Parse(Context(ExpectHeaders, request), s) == (Context(GotAll, request), body);
    }
  }

  // ------------------------------------------------------- the round trip

  /** Header block and body printed from a list are read back exactly when every
      header fits on its line untouched and the length is right. */
  lemma BlockRoundTrip(request: Request, list: seq<Header>, body: string)
    requires DistinctNames(list) && request.headers == map[] && request.body == ""
    ensures Parse(Context(ExpectHeaders, request), Lines(list) + (CRLF + body))
            == (Context(GotAll, request.(headers := Store(map[], list), body := body)), "")
            <==> && (forall i :: 0 <= i < |list| ==> OneLine(list[i]) && Trimmed(list[i].1))
                 && Max(ContentLength(Store(map[], list)), 0) == |body|
  {
    hide Parse, Trimmed, HasCRLF, ContentLength, Lines;
    var start := Context(ExpectHeaders, request);
    var text := Lines(list) + (CRLF + body);
    var wanted := (Context(GotAll, request.(headers := Store(map[], list), body := body)), "");
    StoreLookup(map[], list);
    ParsedHeadersAreClean(start, text);
    if Parse(start, text) == wanted || forall i :: 0 <= i < |list| ==> OneLine(list[i]) {
      if Parse(start, text) == wanted {
        forall i | 0 <= i < |list|
          ensures OneLine(list[i])
        {
          assert list[i].0 in Store(map[], list);
          assert (list[i].0, Store(map[], list)[list[i].0]) == list[i];
        }
      }
      ParseLines(request, list, CRLF + body);
      var read := request.(headers := Store(map[], Reread(list)));
      ParseBody(read, body);
      RereadKeepsMap(list);
    }
  }

  /** And the bytes after such a block stay unread. */
  lemma BlockThenMore(list: seq<Header>, body: string, more: string)
    requires DistinctNames(list) && Max(ContentLength(Store(map[], list)), 0) == |body|
    requires forall i :: 0 <= i < |list| ==> OneLine(list[i]) && Trimmed(list[i].1)
    ensures Parse(Context(ExpectHeaders, EMPTY_REQUEST), Lines(list) + (CRLF + body) + more)
            == (Context(GotAll, EMPTY_REQUEST.(headers := Store(map[], list), body := body)), more)
  {
    hide Parse, Lines, OneLine, Trimmed, ContentLength, Store;
    BlockRoundTrip(EMPTY_REQUEST, list, body);
    ParseResumes(Context(ExpectHeaders, EMPTY_REQUEST), Lines(list) + (CRLF + body), more);
    GotAllParses(EMPTY_REQUEST.(headers := Store(map[], list), body := body), more);
    assert "" + more == more;
  }

  // ------------------------------------------------------- whole requests

  /** A request as a client prints it. */
  function RequestText(text: string, path: string, query: Option<string>, version: string,
                       list: seq<Header>, body: string): string
  {
    text + " " + Target(path, query) + " " + version + CRLF + Lines(list) + (CRLF + body)
  }

  /** What a printed request may consist of. */
  ghost predicate Printable(text: string, verb: Method, path: string, query: Option<string>, version: string,
                            list: seq<Header>, body: string)
  {
    && IsVerb(text, verb) && IsVersion(version)
    && ' ' !in path && '?' !in path && !HasCRLF(path)
    && (query.Some? ==> ' ' !in query.value && !HasCRLF(query.value))
    && DistinctNames(list)
    && (forall i :: 0 <= i < |list| ==> OneLine(list[i]) && Trimmed(list[i].1))
    && Max(ContentLength(Store(map[], list)), 0) == |body|
  }

  lemma VersionsHaveNoReturn(text: string, verb: Method, version: string)
    requires IsVerb(text, verb) && IsVersion(version)
    ensures '\r' !in text && '\r' !in version && version != ""
  {
  }

  /** Texts without a line end, kept apart by another character, make none. */
  lemma JoinedHasNoCRLF(a: string, c: char, b: string)
    requires !HasCRLF(a) && !HasCRLF(b) && c != '\r' && c != '\n'
    ensures !HasCRLF(a + [c] + b)
  {
    var s := a + [c] + b;
    forall i | 0 <= i < |s|
      ensures !CRLFAt(s, i)
    {
      assert !CRLFAt(a, i) && !CRLFAt(b, i - |a| - 1);
      assert i > |a| ==> s[i] == b[i - |a| - 1];
    }
  }

  lemma FirstLineHasNoCRLF(text: string, verb: Method, path: string, query: Option<string>, version: string)
    requires IsVerb(text, verb) && IsVersion(version)
    requires !HasCRLF(path) && (query.Some? ==> !HasCRLF(query.value))
    ensures var line := text + " " + Target(path, query) + " " + version;
            line != "" && !HasCRLF(line) && line[|line| - 1] != '\r'
  {
    VersionsHaveNoReturn(text, verb, version);
    NoReturnNoCRLF(text);
    NoReturnNoCRLF(version);
    hide HasCRLF, IsVerb, IsVersion;
    if query.Some? {
      JoinedHasNoCRLF(path, '?', query.value);
      assert Target(path, query) == path + ['?'] + query.value;
    }
    JoinedHasNoCRLF(text, ' ', Target(path, query));
    JoinedHasNoCRLF(text + [' '] + Target(path, query), ' ', version);
    var line := text + " " + Target(path, query) + " " + version;
    assert line == text + [' '] + Target(path, query) + [' '] + version;
    assert line[|line| - 1] == version[|version| - 1];
  }

  /** A printed request is read back field by field, its verb as the one of its text, and what
      follows it stays unread. */
  lemma RequestRoundTrip(text: string, verb: Method, path: string, query: Option<string>, version: string,
                         list: seq<Header>, body: string, more: string)
    requires Printable(text, verb, path, query, version, list, body)
    ensures Parse(FRESH, RequestText(text, path, query, version, list, body) + more)
            == (Context(GotAll, Request(verb, path, version, if query.Some? then query.value else "",
                                        body, Store(map[], list))), more)
  {
    hide Parse, Turn, ParseRequestLine, FindCRLF, Lines, IsVerb, IsVersion, Trimmed, ContentLength;
    var line := text + " " + Target(path, query) + " " + version;
    var block := Lines(list) + (CRLF + body);
    var whole := RequestText(text, path, query, version, list, body);
    assert whole == line + CRLF + block;
    FirstLineHasNoCRLF(text, verb, path, query, version);
    RequestLineRoundTrip(EMPTY_REQUEST, text, verb, path, query, version);
    var read := ParseRequestLine(EMPTY_REQUEST, line).1;
    FirstLineParses(line, read, block);
    BlockRoundTrip(read, list, body);
    ParseResumes(FRESH, whole, more);
    GotAllParses(read.(headers := Store(map[], list), body := body), more);
    assert "" + more == more;
  }

  lemma GotAllParses(request: Request, s: string)
    ensures Parse(Context(GotAll, request), s) == (Context(GotAll, request), s)
  {
  }

  lemma FirstLineParses(line: string, read: Request, rest: string)
    requires line != "" && !HasCRLF(line) && line[|line| - 1] != '\r'
    requires ParseRequestLine(EMPTY_REQUEST, line) == (true, read)
    ensures Parse(FRESH, line + CRLF + rest) == Parse(Context(ExpectHeaders, read), rest)
  {
    hide ParseRequestLine;
    var s := line + CRLF + rest;
    forall i | 0 <= i < |line|
      ensures !CRLFAt(s, i)
    {
      assert !CRLFAt(line, i);
    }
    FindCRLFIs(s, |line|);
    assert s[..|line|] == line && s[|line| + 2..] == rest;
    assert Turn(FRESH, s) == Some((Context(ExpectHeaders, read), |line| + 2));
  }

  /** The headers a receiver should see: the ones set, and the automatic ones. */
  function Sent(headers: map<string, string>, body: string): map<string, string> {
    Store(headers, Automatic(headers, body))
  }

  /** What a receiver sees: every header set, as it was set; with a body, its printed length and
      the type text/plain unless they were set; always a server name; and nothing else. */
  lemma SentHeaders(headers: map<string, string>, body: string)
    ensures forall name :: name in headers ==> name in Sent(headers, body) && Sent(headers, body)[name] == headers[name]
    ensures Sent(headers, body).Keys
            == headers.Keys + {"Server"} + if body == "" then {} else {"Content-Length", "Content-Type"}
    ensures "Server" !in headers ==> Sent(headers, body)["Server"] == "MyCppServer/1.0"
    ensures body != "" && "Content-Type" !in headers ==> Sent(headers, body)["Content-Type"] == "text/plain"
    ensures body != "" && "Content-Length" !in headers ==>
              Sent(headers, body)["Content-Length"] == IntToString(|body|)
  {
    hide IntToString;
    var length, kind, server := LengthHeader(headers, body), TypeHeader(headers, body), ServerHeader(headers);
    assert Automatic(headers, body) == length + (kind + server);
    StoreAppend(headers, length, kind + server);
    var first := Store(headers, length);
    StoreAppend(first, kind, server);
    StoreAtMostOne(headers, length);
    StoreAtMostOne(first, kind);
    StoreAtMostOne(Store(first, kind), server);
    hide Store;
  }

  /** In the text they come in this order. */
  lemma AutomaticInOrder(body: string)
    ensures Automatic(map[], body)
            == (if body == "" then [] else [("Content-Length", IntToString(|body|)), ("Content-Type", "text/plain")])
               + [("Server", "MyCppServer/1.0")]
  {
    hide IntToString;
    assert body != "" ==> LengthHeader(map[], body) + TypeHeader(map[], body)
                          == [("Content-Length", IntToString(|body|)), ("Content-Type", "text/plain")];
  }

  lemma StoreAtMostOne(headers: map<string, string>, list: seq<Header>)
    ensures list == [] ==> Store(headers, list) == headers
    ensures |list| == 1 ==> Store(headers, list) == headers[list[0].0 := list[0].1]
  {
  }

  /** A header that survives printing and parsing. */
  ghost predicate Conforming(name: string, value: string) {
    OneLine((name, value)) && Trimmed(value)
  }

  /** The body length agrees with an explicit Content-Length, or fits the automatic one. */
  predicate LengthAgrees(headers: map<string, string>, body: string) {
    if CONTENT_LENGTH in headers then Max(LengthOfValue(headers[CONTENT_LENGTH]), 0) == |body|
    else |body| <= INT_MAX
  }

  lemma NoReturnNoCRLF(s: string)
    requires '\r' !in s
    ensures !HasCRLF(s)
  {
  }

  lemma AutomaticConforms(headers: map<string, string>, body: string, i: nat)
    requires i < |Automatic(headers, body)|
    ensures var header := Automatic(headers, body)[i]; OneLine(header) && Trimmed(header.1)
    ensures Automatic(headers, body)[i].0 !in headers
  {
    hide HasCRLF, Trimmed;
    var header := Automatic(headers, body)[i];
    AutomaticValues(|body|);
    NoReturnNoCRLF(header.0);
    NoReturnNoCRLF(header.1);
  }

  lemma AutomaticValues(length: nat)
    ensures Trimmed(IntToString(length)) && '\r' !in IntToString(length)
    ensures Trimmed("text/plain") && Trimmed("MyCppServer/1.0")
  {
    ToStringValue(length);
    var s := ToString(length);
    assert IsDigit(s[0]) && IsDigit(s[|s| - 1]);
  }

  lemma ListingStores(headers: map<string, string>, body: string, listing: seq<Header>)
    requires IsListing(listing, headers)
    ensures DistinctNames(listing + Automatic(headers, body))
    ensures Store(map[], listing + Automatic(headers, body)) == Sent(headers, body)
  {
    var auto := Automatic(headers, body);
    var list := listing + auto;
    forall i | 0 <= i < |auto|
      ensures auto[i].0 !in headers
    {
      AutomaticConforms(headers, body, i);
    }
    assert DistinctNames(auto);
    assert DistinctNames(list);
    StoreLookup(map[], listing);
    assert Store(map[], listing) == headers;
    StoreAppend(map[], listing, auto);
  }

  lemma {:induction false} StoreAppend(headers: map<string, string>, a: seq<Header>, b: seq<Header>)
    ensures Store(headers, a + b) == Store(Store(headers, a), b)
    decreases |a|
  {
    if a == [] {
      assert a + b == b;
    } else {
      assert (a + b)[1..] == a[1..] + b;
      StoreAppend(headers[a[0].0 := a[0].1], a[1..], b);
    }
  }

  lemma SentLength(headers: map<string, string>, body: string)
    ensures Max(ContentLength(Sent(headers, body)), 0) == |body| <==> LengthAgrees(headers, body)
  {
    var auto := Automatic(headers, body);
    assert DistinctNames(auto);
    StoreLookup(headers, auto);
    LengthRoundTrip(|body|);
    if CONTENT_LENGTH in headers {
      assert !Names(auto, CONTENT_LENGTH);
    } else if body != "" {
      assert auto[0] == (CONTENT_LENGTH, IntToString(|body|));
    } else {
      assert !Names(auto, CONTENT_LENGTH);
    }
  }

  lemma ListConformsIff(headers: map<string, string>, body: string, listing: seq<Header>)
    requires IsListing(listing, headers)
    ensures var list := listing + Automatic(headers, body);
            (forall i :: 0 <= i < |list| ==> OneLine(list[i]) && Trimmed(list[i].1))
            <==> forall name :: name in headers ==> Conforming(name, headers[name])
  {
    hide OneLine, Trimmed, Automatic;
    var auto := Automatic(headers, body);
    var list := listing + auto;
    if forall name :: name in headers ==> Conforming(name, headers[name]) {
      forall i | 0 <= i < |list|
        ensures OneLine(list[i]) && Trimmed(list[i].1)
      {
        if i < |listing| {
          assert Conforming(listing[i].0, headers[listing[i].0]);
        } else {
          AutomaticConforms(headers, body, i - |listing|);
        }
      }
    } else {
      var name :| name in headers && !Conforming(name, headers[name]);
      assert Names(listing, name);
      var i :| 0 <= i < |listing| && listing[i].0 == name;
      assert list[i] == listing[i] == (name, headers[name]);
    }
  }

  /** Whatever order the header map is walked in, what follows the status line is read
      back as exactly the headers set, the automatic ones and the body, with nothing
      left over, if and only if every header set conforms and the length agrees. */
  lemma SerializeRoundTrip(headers: map<string, string>, body: string, listing: seq<Header>)
    requires IsListing(listing, headers)
    ensures Parse(Context(ExpectHeaders, EMPTY_REQUEST), Lines(listing + Automatic(headers, body)) + CRLF + body)
            == (Context(GotAll, EMPTY_REQUEST.(headers := Sent(headers, body), body := body)), "")
            <==> (forall name :: name in headers ==> Conforming(name, headers[name])) && LengthAgrees(headers, body)
  {
    hide Parse, Lines, Automatic, Sent, Store, OneLine, Trimmed, Conforming, ContentLength, LengthAgrees, IsListing,
         DistinctNames;
    var list := listing + Automatic(headers, body);
    ListingStores(headers, body, listing);
    SentLength(headers, body);
    BlockRoundTrip(EMPTY_REQUEST, list, body);
    ListConformsIff(headers, body, listing);
    assert Lines(list) + CRLF + body == Lines(list) + (CRLF + body);
  }

  /** Bytes after a conforming response stay unread: responses can follow each other. */
  lemma SerializeThenMore(headers: map<string, string>, body: string, listing: seq<Header>, more: string)
    requires IsListing(listing, headers) && LengthAgrees(headers, body)
    requires forall name :: name in headers ==> Conforming(name, headers[name])
    ensures Parse(Context(ExpectHeaders, EMPTY_REQUEST),
                  Lines(listing + Automatic(headers, body)) + CRLF + body + more)
            == (Context(GotAll, EMPTY_REQUEST.(headers := Sent(headers, body), body := body)), more)
  {
    var text := Lines(listing + Automatic(headers, body)) + CRLF + body;
    SerializeRoundTrip(headers, body, listing);
    ParseResumes(Context(ExpectHeaders, EMPTY_REQUEST), text, more);
    assert "" + more == more;
  }

  /** A client that splits the status line at its first two spaces, as the request parser
      does with its line, gets the version, the number and the message, spaces and all. */
  lemma StatusLineRoundTrip(code: int, message: string)
    ensures ' ' !in IntToString(code) && Strtol(IntToString(code), 0).0 == Clamp(code)
    ensures var line := StatusLine(code, message);
            line[|line| - 2..] == CRLF
            && SplitLine(line[..|line| - 2]) == Some(("HTTP/1.1", IntToString(code), message))
  {
    StrtolOfInt(code);
    ToStringValue(if code < 0 then -code else code);
    assert ' ' !in "HTTP/1.1" && ' ' !in IntToString(code);
    SplitLineJoins("HTTP/1.1", IntToString(code), message);
    hide IntToString, SplitLine;
    var line := "HTTP/1.1 " + IntToString(code) + " " + message;
    assert "HTTP/1.1" + " " == "HTTP/1.1 ";
    assert StatusLine(code, message) == line + CRLF;
  }
}
