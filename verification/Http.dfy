/**
 The incremental HTTP request parser: HttpContext over HttpRequest.

 `Parse` is what one call of parseRequest does to the parser and the bytes of a buffer.
 Requests are rendered in the form of sections 3 and 5 of RFC 9112.
 */
module Http {
  import opened Bytes
  import opened NetBuffer

  datatype Method = Invalid | Get | Post | Head | Put | Delete
  datatype Version = Unknown | Http10 | Http11
  datatype ParseState = ExpectRequestLine | ExpectHeaders | ExpectBody | GotAll

  type Text = seq<byte>

  datatype Request = Request(verb: Method, version: Version, path: Text, query: Text, headers: map<Text, Text>)
  {
    function GetHeader(field: Text): Text {
      if field in headers then headers[field] else []
    }
  }

  const NEW_REQUEST := Request(Invalid, Unknown, [], [], map[])

  const SPACE: byte := 32
  const TAB: byte := 9
  const COLON: byte := 58
  const QUESTION: byte := 63
  const CRLF: Text := [CR, LF]

  function MethodString(m: Method): Text {
    match m
    case Get => [71, 69, 84]
    case Post => [80, 79, 83, 84]
    case Head => [72, 69, 65, 68]
    case Put => [80, 85, 84]
    case Delete => [68, 69, 76, 69, 84, 69]
    case Invalid => [85, 78, 75, 78, 79, 87, 78]
  }

  function MethodOf(s: Text): Method {
    if s == MethodString(Get) then Get
    else if s == MethodString(Post) then Post
    else if s == MethodString(Head) then Head
    else if s == MethodString(Put) then Put
    else if s == MethodString(Delete) then Delete
    else Invalid
  }

  /** "HTTP/1.0" and "HTTP/1.1". */
  function VersionString(v: Version): Text {
    [72, 84, 84, 80, 47, 49, 46, if v == Http10 then 48 else 49]
  }

  // ---------- searching ----------

  /** string_view::find: the first `b` at or after `from`. */
  function IndexOf(s: Text, b: byte, from: nat): (r: Option<nat>)
    ensures r.Some? ==> from <= r.value < |s| && s[r.value] == b && forall i :: from <= i < r.value ==> s[i] != b
    ensures r.None? ==> forall i :: from <= i < |s| ==> s[i] != b
    decreases |s| - from
  {
    if from >= |s| then None else if s[from] == b then Some(from) else IndexOf(s, b, from + 1)
  }

  function CrlfFrom(s: Text, from: nat): (r: Option<nat>)
    ensures IsFirstCrlf(s, from, r)
    decreases |s| - from
  {
    if from + 1 >= |s| then None
    else if s[from] == CR && s[from + 1] == LF then Some(from)
    else CrlfFrom(s, from + 1)
  }

  lemma FirstCrlfUnique(s: Text, r: Option<nat>)
    requires IsFirstCrlf(s, 0, r)
    ensures r == CrlfFrom(s, 0)
  {
    var q := CrlfFrom(s, 0);
    if r.Some? && q.Some? {
      assert !(r.value < q.value) && !(q.value < r.value);
    }
  }

  lemma CrlfStable(s: Text, t: Text)
    requires CrlfFrom(s, 0).Some?
    ensures CrlfFrom(s + t, 0) == CrlfFrom(s, 0)
  {
    var p := CrlfFrom(s, 0).value;
    assert forall i :: 0 <= i < |s| ==> (s + t)[i] == s[i];
    FirstCrlfUnique(s + t, Some(p));
  }

  // ---------- HttpRequest::addHeader ----------

  predicate IsSpace(b: byte) {
    b == 32 || 9 <= b <= 13
  }

  function TrimLeft(s: Text): Text {
    if s != [] && IsSpace(s[0]) then TrimLeft(s[1..]) else s
  }

  function TrimRight(s: Text): Text {
    if s != [] && IsSpace(s[|s| - 1]) then TrimRight(s[..|s| - 1]) else s
  }

  function AddHeader(r: Request, key: Text, value: Text): Request {
    r.(headers := r.headers[key := TrimRight(TrimLeft(value))])
  }

  /** The trimming loops of addHeader. */
  method Trim(text: Text) returns (value: Text)
    ensures value == TrimRight(TrimLeft(text))
  {
    value := text;
    while value != [] && IsSpace(value[0])
      invariant TrimLeft(value) == TrimLeft(text)
      decreases |value|
    {
      value := value[1..];
    }
    while value != [] && IsSpace(value[|value| - 1])
      invariant TrimRight(value) == TrimRight(TrimLeft(text))
      decreases |value|
    {
      value := value[..|value| - 1];
    }
  }

  // ---------- HttpContext::processRequestLine ----------

  /** Whether the line is accepted, and the request with the fields it set, in either case. */
  function RequestLine(r: Request, line: Text): (bool, Request) {
    match IndexOf(line, SPACE, 0)
    case None => (false, r)
    case Some(methodEnd) =>
      var r1 := r.(verb := MethodOf(line[..methodEnd]));
      if r1.verb == Invalid then (false, r1)
      else
        match IndexOf(line, SPACE, methodEnd + 1)
        case None => (false, r1)
        case Some(versionBegin) =>
          var r2 := SetUri(r1, line[methodEnd + 1..versionBegin]);
          var version := line[versionBegin + 1..];
          if version == VersionString(Http11) then (true, r2.(version := Http11))
          else if version == VersionString(Http10) then (true, r2.(version := Http10))
          else (false, r2)
  }

  function SetUri(r: Request, uri: Text): Request {
    match IndexOf(uri, QUESTION, 0)
    case Some(q) => r.(path := uri[..q], query := uri[q + 1..])
    case None => r.(path := uri)
  }

  /** Offering a line twice is offering it once, so a refused line can be retried. */
  lemma RequestLineIdempotent(r: Request, line: Text)
    ensures RequestLine(RequestLine(r, line).1, line) == RequestLine(r, line)
  {
  }

  // ---------- HttpContext::parseRequest ----------

  datatype Context = Context(state: ParseState, request: Request)
  datatype Outcome = Outcome(context: Context, ok: bool, rest: Text)

  /** What one line does: more lines are read, the request is complete, or the line is refused. */
  datatype Verdict = More | Complete | Refused

  function OnLine(c: Context, line: Text): (Context, Verdict) {
    if c.state == ExpectRequestLine then
      var (ok, r) := RequestLine(c.request, line);
      if ok then (Context(ExpectHeaders, r), More) else (c.(request := r), Refused)
    else HeaderLine(c, line)
  }

  function HeaderLine(c: Context, line: Text): (Context, Verdict) {
    match IndexOf(line, COLON, 0)
    case Some(colon) => (c.(request := AddHeader(c.request, line[..colon], line[colon + 1..])), More)
    case None => (c.(state := GotAll), Complete)
  }

  function Parse(c: Context, s: Text): Outcome
    decreases |s|
  {
    if c.state == ExpectBody || c.state == GotAll then Outcome(c, true, s)
    else
      match CrlfFrom(s, 0)
      case None => Outcome(c, true, s)
      case Some(p) =>
        var (next, verdict) := OnLine(c, s[..p]);
        match verdict
        case More => Parse(next, s[p + 2..])
        case Complete => Outcome(next, true, s[p + 2..])
        case Refused => Outcome(next, false, s)
  }

  lemma RefusedAgain(c: Context, line: Text)
    requires OnLine(c, line).1 == Refused
    ensures OnLine(OnLine(c, line).0, line) == OnLine(c, line)
    ensures OnLine(c, line).0.state == c.state
  {
    RequestLineIdempotent(c.request, line);
  }

  /** One pass of the parsing loop over the input `s`: the line is consumed unless refused. */
  predicate LineRead(c: Context, s: Text, next: Context, ok: bool, hasMore: bool, rest: Text) {
    match CrlfFrom(s, 0)
    case None => ok && !hasMore && next == c && rest == s
    case Some(p) =>
      var verdict := OnLine(c, s[..p]).1;
      && next == OnLine(c, s[..p]).0 && ok == (verdict != Refused) && hasMore == (verdict == More)
      && rest == s[if ok then p + 2 else 0..]
  }

  lemma ParseAfterLine(c: Context, s: Text, next: Context, ok: bool, hasMore: bool, rest: Text)
    requires LineRead(c, s, next, ok, hasMore, rest) && (c.state == ExpectRequestLine || c.state == ExpectHeaders)
    ensures Parse(c, s) == if hasMore then Parse(next, rest) else Outcome(next, ok, rest)
    ensures hasMore ==> ok && |rest| < |s|
    ensures next.state == ExpectRequestLine ==> c.state == ExpectRequestLine
  {
  }

  class HttpContext {
    var state: ParseState
    var request: Request
    var receiveTime: int

    constructor ()
      ensures Current() == Context(ExpectRequestLine, NEW_REQUEST)
    {
      state, request, receiveTime := ExpectRequestLine, NEW_REQUEST, 0;
    }

    ghost function Current(): Context
      reads this
    {
      Context(state, request)
    }

    method Reset()
      modifies this
      ensures Current() == Context(ExpectRequestLine, NEW_REQUEST) && receiveTime == 0
    {
      state, request, receiveTime := ExpectRequestLine, NEW_REQUEST, 0;
    }

    method ProcessRequestLine(line: Text) returns (ok: bool)
      modifies this`request
      ensures (ok, request) == RequestLine(old(request), line)
    {
      var methodEnd := IndexOf(line, SPACE, 0);
      if methodEnd.None? {
        return false;
      }
      request := request.(verb := MethodOf(line[..methodEnd.value]));
      if request.verb == Invalid {
        return false;
      }
      var uriBegin := methodEnd.value + 1;
      var versionBegin := IndexOf(line, SPACE, uriBegin);
      if versionBegin.None? {
        return false;
      }
      var uri := line[uriBegin..versionBegin.value];
      var questionPos := IndexOf(uri, QUESTION, 0);
      if questionPos.Some? {
        request := request.(path := uri[..questionPos.value]);
        request := request.(query := uri[questionPos.value + 1..]);
      } else {
        request := request.(path := uri);
      }
      var version := line[versionBegin.value + 1..];
      if version == VersionString(Http11) {
        request := request.(version := Http11);
        return true;
      }
      if version == VersionString(Http10) {
        request := request.(version := Http10);
        return true;
      }
      return false;
    }

    /** A line of the header section: a field, or the end. */
    method ProcessHeaderLine(line: Text) returns (hasMore: bool)
      modifies this`state, this`request
      ensures (Current(), if hasMore then More else Complete) == HeaderLine(old(Current()), line)
    {
      var colon := IndexOf(line, COLON, 0);
      if colon.Some? {
        var value := Trim(line[colon.value + 1..]);
        request := request.(headers := request.headers[line[..colon.value] := value]);
        hasMore := true;
      } else {
        state := GotAll;
        hasMore := false;
      }
    }

    method ReadLine(buf: Buffer, now: int) returns (ok: bool, hasMore: bool)
      requires buf.Valid() && (state == ExpectRequestLine || state == ExpectHeaders)
      modifies this, buf
      ensures buf.Valid() && buf.data == old(buf.data)
      ensures LineRead(old(Current()), old(buf.Contents()), Current(), ok, hasMore, buf.Contents())
      ensures receiveTime ==
              if old(state) == ExpectRequestLine && state != ExpectRequestLine then now else old(receiveTime)
    {
      ok, hasMore := true, true;
      var crlf := buf.FindCrlf(0);
      FirstCrlfUnique(buf.Contents(), crlf);
      if crlf.None? {
        return true, false;
      }
      var readable := buf.ReadableSpan();
      var line := readable[..crlf.value];
      if state == ExpectRequestLine {
        ok := ProcessRequestLine(line);
        if ok {
          receiveTime := now;
          buf.Retrieve(crlf.value + 2);
          state := ExpectHeaders;
        } else {
          hasMore := false;
        }
      } else {
        hasMore := ProcessHeaderLine(line);
        buf.Retrieve(crlf.value + 2);
      }
    }

    method ParseRequest(buf: Buffer, now: int) returns (ok: bool)
      requires buf.Valid()
      modifies this, buf
      ensures buf.Valid() && buf.data == old(buf.data)
      ensures Outcome(Current(), ok, buf.Contents()) == Parse(old(Current()), old(buf.Contents()))
      ensures receiveTime ==
              if old(state) == ExpectRequestLine && state != ExpectRequestLine then now else old(receiveTime)
    {
      ok := true;
      var hasMore := true;
      ghost var goal := Parse(Current(), buf.Contents());
      while hasMore
        invariant buf.Valid() && buf.data == old(buf.data)
        invariant hasMore ==> ok && Parse(Current(), buf.Contents()) == goal
        invariant !hasMore ==> Outcome(Current(), ok, buf.Contents()) == goal
        invariant state == ExpectRequestLine ==> old(state) == ExpectRequestLine
        invariant receiveTime ==
                  if old(state) == ExpectRequestLine && state != ExpectRequestLine then now else old(receiveTime)
        decreases hasMore, buf.ReadableBytes()
      {
        if state == ExpectRequestLine || state == ExpectHeaders {
          ghost var c, s := Current(), buf.Contents();
          ok, hasMore := ReadLine(buf, now);
          ParseAfterLine(c, s, Current(), ok, hasMore, buf.Contents());
        } else {
          hasMore := false;
        }
      }
    }
  }

  // ---------- chunking ----------

  /** parseRequest called after each arriving chunk; `ok` is what the last call returned. */
  function Feed(c: Context, pending: Text, chunks: seq<Text>): Outcome
    requires chunks != []
    decreases |chunks|
  {
    var d := Parse(c, pending + chunks[0]);
    if |chunks| == 1 then d else Feed(d.context, d.rest, chunks[1..])
  }

  lemma {:induction false} ParseResumes(c: Context, s: Text, t: Text)
    ensures var d := Parse(c, s); Parse(c, s + t) == Parse(d.context, d.rest + t)
    decreases |s|
  {
    if (c.state == ExpectRequestLine || c.state == ExpectHeaders) && CrlfFrom(s, 0).Some? {
      CrlfStable(s, t);
      var p := CrlfFrom(s, 0).value;
      assert (s + t)[..p] == s[..p] && (s + t)[p + 2..] == s[p + 2..] + t;
      var (next, verdict) := OnLine(c, s[..p]);
      if verdict == More {
        ParseResumes(next, s[p + 2..], t);
      } else if verdict == Refused {
        RefusedAgain(c, s[..p]);
      }
    }
  }

  /** However the bytes are cut, the parser's state, its request, its last answer and the unread bytes are the same. */
  lemma {:induction false} ChunkIndependent(c: Context, pending: Text, chunks: seq<Text>)
    requires chunks != []
    ensures Feed(c, pending, chunks) == Parse(c, pending + Concat(chunks))
    decreases |chunks|
  {
    var first := pending + chunks[0];
    if |chunks| == 1 {
      assert Concat(chunks) == chunks[0] + Concat(chunks[1..]) == chunks[0];
    } else {
      assert pending + Concat(chunks) == first + Concat(chunks[1..]);
      ParseResumes(c, first, Concat(chunks[1..]));
      var d := Parse(c, first);
      ChunkIndependent(d.context, d.rest, chunks[1..]);
    }
  }

  // ---------- rendering ----------

  /** No CR LF inside. */
  predicate OneLine(line: Text) {
    forall i :: 0 <= i < |line| - 1 ==> !(line[i] == CR && line[i + 1] == LF)
  }

  /** A field line of section 5 of RFC 9112, with its optional whitespace. */
  datatype Field = Field(name: Text, lead: Text, value: Text, trail: Text)
  {
    /** What the parser takes for a field line. */
    predicate Legal() {
      && COLON !in name && OneLine(Line())
      && (forall b :: b in lead + trail ==> IsSpace(b))
      && (value != [] ==> !IsSpace(value[0]) && !IsSpace(value[|value| - 1]))
    }

    predicate WellFormed() {
      && COLON !in name && CR !in name && CR !in value
      && (forall b :: b in lead + trail ==> b == SPACE || b == TAB)
      && (value != [] ==> !IsSpace(value[0]) && !IsSpace(value[|value| - 1]))
    }

    function Line(): Text {
      name + [COLON] + lead + value + trail
    }
  }

  /** A request line of section 3 of RFC 9112: method, target with an optional query, version. */
  datatype Start = Start(verb: Method, path: Text, query: Option<Text>, version: Version)
  {
    predicate Legal() {
      && verb != Invalid && version != Unknown
      && SPACE !in path && QUESTION !in path && (query.Some? ==> SPACE !in query.value)
    }

    predicate WellFormed() {
      Legal() && CR !in path && (query.Some? ==> CR !in query.value)
    }

    function Target(): Text {
      path + if query.Some? then [QUESTION] + query.value else []
    }

    function Line(): Text {
      MethodString(verb) + [SPACE] + Target() + [SPACE] + VersionString(version)
    }
  }

  /** Field lines and the line that ends them. */
  function Section(fields: seq<Field>, last: Text): Text {
    if fields == [] then last + CRLF else fields[0].Line() + CRLF + Section(fields[1..], last)
  }

  function Render(start: Start, fields: seq<Field>): Text {
    start.Line() + CRLF + Section(fields, [])
  }

  /** The fields by name; of several with one name the last counts. */
  function FieldMap(headers: map<Text, Text>, fields: seq<Field>): map<Text, Text>
    decreases |fields|
  {
    if fields == [] then headers else FieldMap(headers[fields[0].name := fields[0].value], fields[1..])
  }

  lemma LineEnd(line: Text, t: Text)
    requires OneLine(line)
    ensures CrlfFrom(line + CRLF + t, 0) == Some(|line|)
    ensures (line + CRLF + t)[..|line|] == line && (line + CRLF + t)[|line| + 2..] == t
  {
    var s := line + CRLF + t;
    assert s[|line|] == CR && s[|line| + 1] == LF;
    assert forall i :: 0 <= i < |line| ==> s[i] == line[i];
    forall i | 0 <= i < |line| ensures !(s[i] == CR && s[i + 1] == LF) {
      assert i < |line| - 1 ==> !(line[i] == CR && line[i + 1] == LF);
    }
    FirstCrlfUnique(s, Some(|line|));
  }

  lemma FirstIndex(before: Text, b: byte, after: Text)
    requires b !in before
    ensures IndexOf(before + [b] + after, b, 0) == Some(|before|)
  {
    var s := before + [b] + after;
    assert s[|before|] == b;
    assert forall i :: 0 <= i < |before| ==> s[i] == before[i];
  }

  lemma {:induction false} TrimLeftOf(lead: Text, s: Text)
    requires forall b :: b in lead ==> IsSpace(b)
    requires s != [] ==> !IsSpace(s[0])
    ensures TrimLeft(lead + s) == s
  {
    if lead == [] {
      assert lead + s == s;
    } else {
      assert lead[0] in lead && (lead + s)[1..] == lead[1..] + s;
      TrimLeftOf(lead[1..], s);
    }
  }

  lemma {:induction false} TrimRightOf(s: Text, trail: Text)
    requires forall b :: b in trail ==> IsSpace(b)
    requires s != [] ==> !IsSpace(s[|s| - 1])
    ensures TrimRight(s + trail) == s
    decreases |trail|
  {
    if trail == [] {
      assert s + trail == s;
    } else {
      var n := |trail| - 1;
      assert trail[n] in trail && (s + trail)[..|s| + n] == s + trail[..n];
      TrimRightOf(s, trail[..n]);
    }
  }

  lemma TrimOf(f: Field)
    requires f.Legal()
    ensures TrimRight(TrimLeft(f.lead + f.value + f.trail)) == f.value
  {
    assert forall b :: b in f.lead ==> b in f.lead + f.trail;
    assert forall b :: b in f.trail ==> b in f.lead + f.trail;
    if f.value == [] {
      assert f.lead + f.value + f.trail == (f.lead + f.trail) + [];
      TrimLeftOf(f.lead + f.trail, []);
    } else {
      assert f.lead + f.value + f.trail == f.lead + (f.value + f.trail);
      TrimLeftOf(f.lead, f.value + f.trail);
      TrimRightOf(f.value, f.trail);
    }
  }

  lemma WellFormedIsLegal(f: Field)
    requires f.WellFormed()
    ensures f.Legal()
  {
    assert forall b :: b in f.lead ==> b in f.lead + f.trail;
    assert forall b :: b in f.trail ==> b in f.lead + f.trail;
    assert CR !in f.Line();
  }

  lemma FieldLine(r: Request, f: Field)
    requires f.Legal()
    ensures OnLine(Context(ExpectHeaders, r), f.Line()) ==
            (Context(ExpectHeaders, r.(headers := r.headers[f.name := f.value])), More)
  {
    var text := f.lead + f.value + f.trail;
    assert f.Line() == f.name + [COLON] + text;
    FirstIndex(f.name, COLON, text);
    assert f.Line()[..|f.name|] == f.name && f.Line()[|f.name| + 1..] == text;
    TrimOf(f);
  }

  lemma {:induction false} ParseSection(r: Request, fields: seq<Field>, last: Text, body: Text)
    requires (forall f :: f in fields ==> f.Legal()) && OneLine(last) && COLON !in last
    ensures Parse(Context(ExpectHeaders, r), Section(fields, last) + body)
         == Outcome(Context(GotAll, r.(headers := FieldMap(r.headers, fields))), true, body)
    decreases |fields|
  {
    if fields == [] {
      LineEnd(last, body);
      assert OnLine(Context(ExpectHeaders, r), last) == (Context(GotAll, r), Complete);
    } else {
      var f, others := fields[0], Section(fields[1..], last) + body;
      assert Section(fields, last) + body == f.Line() + CRLF + others;
      assert f.Legal();
      FieldLine(r, f);
      LineEnd(f.Line(), others);
      ParseSection(r.(headers := r.headers[f.name := f.value]), fields[1..], last, body);
    }
  }

  lemma ParseTarget(r: Request, start: Start)
    requires start.Legal()
    ensures SetUri(r, start.Target()) ==
            r.(path := start.path, query := if start.query.Some? then start.query.value else r.query)
  {
    var uri := start.Target();
    if start.query.Some? {
      assert uri == start.path + [QUESTION] + start.query.value;
      FirstIndex(start.path, QUESTION, start.query.value);
      assert uri[..|start.path|] == start.path && uri[|start.path| + 1..] == start.query.value;
    } else {
      assert uri == start.path;
    }
  }

  lemma MethodRoundTrip(m: Method)
    requires m != Invalid
    ensures MethodOf(MethodString(m)) == m
    ensures SPACE !in MethodString(m) && CR !in MethodString(m)
  {
    match m
    case Get =>
    case Post =>
    case Head =>
    case Put =>
    case Delete =>
  }

  /** The text of a string of ASCII characters. */
  function Ascii(s: string): Text
    requires forall i :: 0 <= i < |s| ==> s[i] as int < 128
  {
    seq(|s|, i requires 0 <= i < |s| => s[i] as int)
  }

  /** The bytes the parser looks for, as the characters they are. */
  lemma NamesAre()
    ensures MethodString(Get) == Ascii("GET") && MethodString(Post) == Ascii("POST")
            && MethodString(Head) == Ascii("HEAD")
    ensures MethodString(Put) == Ascii("PUT") && MethodString(Delete) == Ascii("DELETE")
    ensures VersionString(Http10) == Ascii("HTTP/1.0") && VersionString(Http11) == Ascii("HTTP/1.1")
    ensures [SPACE] == Ascii(" ") && [COLON] == Ascii(":") && [QUESTION] == Ascii("?") && CRLF == Ascii("\r\n")
    ensures forall b: byte :: IsSpace(b) <==> b in {' ' as int, '\t' as int, '\n' as int, '\r' as int, 11, 12}
  {
  }

  /** setMethod recognises exactly the five names. */
  lemma MethodsExactly(s: Text)
    ensures MethodOf(s) == Get <==> s == Ascii("GET")
    ensures MethodOf(s) == Post <==> s == Ascii("POST")
    ensures MethodOf(s) == Head <==> s == Ascii("HEAD")
    ensures MethodOf(s) == Put <==> s == Ascii("PUT")
    ensures MethodOf(s) == Delete <==> s == Ascii("DELETE")
  {
    NamesAre();
    assert |Ascii("GET")| == |Ascii("PUT")| == 3 && Ascii("GET")[0] != Ascii("PUT")[0];
    assert |Ascii("POST")| == |Ascii("HEAD")| == 4 && Ascii("POST")[0] != Ascii("HEAD")[0];
  }

  /** What a refused line leaves in the request, by how far it was read. */
  lemma RefusedLeaves(r: Request, line: Text)
    requires !RequestLine(r, line).0
    ensures var q := RequestLine(r, line).1;
            && q.version == r.version && q.headers == r.headers
            && (SPACE !in line ==> q == r)
            && forall m: Text, rest: Text :: line == m + [SPACE] + rest && SPACE !in m ==>
                 && q.verb == MethodOf(m)
                 && (MethodOf(m) == Invalid || SPACE !in rest ==> q == r.(verb := MethodOf(m)))
  {
    forall m: Text, rest: Text | line == m + [SPACE] + rest && SPACE !in m
      ensures var q := RequestLine(r, line).1;
              && q.verb == MethodOf(m)
              && (MethodOf(m) == Invalid || SPACE !in rest ==> q == r.(verb := MethodOf(m)))
    {
      FirstIndex(m, SPACE, rest);
      assert line[..|m|] == m && line[|m| + 1..] == rest;
      if SPACE !in rest {
        forall i | |m| + 1 <= i < |line| ensures line[i] != SPACE {
          assert line[i] == rest[i - |m| - 1];
        }
      }
    }
  }

  lemma RequestLineParts(r: Request, m: Text, uri: Text, v: Text)
    requires SPACE !in m && SPACE !in uri && MethodOf(m) != Invalid
    ensures RequestLine(r, m + [SPACE] + uri + [SPACE] + v) ==
            var r2 := SetUri(r.(verb := MethodOf(m)), uri);
            if v == VersionString(Http11) then (true, r2.(version := Http11))
            else if v == VersionString(Http10) then (true, r2.(version := Http10))
            else (false, r2)
  {
    LineParts(m, uri, v);
    LineSlices(m, uri, v);
  }

  lemma LineParts(m: Text, uri: Text, v: Text)
    requires SPACE !in m && SPACE !in uri
    ensures var line := m + [SPACE] + uri + [SPACE] + v;
            IndexOf(line, SPACE, 0) == Some(|m|) && IndexOf(line, SPACE, |m| + 1) == Some(|m| + 1 + |uri|)
  {
    Assoc(m + [SPACE], uri, [SPACE] + v);
    Assoc(m + [SPACE] + uri, [SPACE], v);
    FirstIndex(m, SPACE, uri + ([SPACE] + v));
    SecondIndex(m, uri, v);
  }

  lemma LineSlices(m: Text, uri: Text, v: Text)
    ensures var line := m + [SPACE] + uri + [SPACE] + v;
            line[..|m|] == m && line[|m| + 1..|m| + 1 + |uri|] == uri && line[|m| + 1 + |uri| + 1..] == v
  {
    var line := m + [SPACE] + uri + [SPACE] + v;
    assert line[..|m|] == m;
    assert line[|m| + 1..|m| + 1 + |uri|] == uri;
    assert line[|m| + 1 + |uri| + 1..] == v;
  }

  lemma ParseStart(r: Request, start: Start)
    requires start.Legal()
    ensures RequestLine(r, start.Line()) ==
            (true, Request(start.verb, start.version, start.path,
                           if start.query.Some? then start.query.value else r.query, r.headers))
  {
    MethodRoundTrip(start.verb);
    RequestLineParts(r, MethodString(start.verb), start.Target(), VersionString(start.version));
    ParseTarget(r.(verb := start.verb), start);
    assert VersionString(Http10)[7] != VersionString(Http11)[7];
  }

  /** The target a request line's middle part is. */
  lemma TargetOf(uri: Text, verb: Method, version: Version) returns (start: Start)
    requires SPACE !in uri
    ensures start.verb == verb && start.version == version && start.Target() == uri
    ensures verb != Invalid && version != Unknown ==> start.Legal()
  {
    match IndexOf(uri, QUESTION, 0)
    case Some(k) =>
      start := Start(verb, uri[..k], Some(uri[k + 1..]), version);
      assert uri == uri[..k] + ([QUESTION] + uri[k + 1..]);
    case None =>
      start := Start(verb, uri, None, version);
      assert uri + [] == uri;
  }

  lemma CutAt(line: Text, p: nat, q: nat)
    requires p < q < |line| && line[p] == line[q] == SPACE
    ensures line == line[..p] + [SPACE] + line[p + 1..q] + [SPACE] + line[q + 1..]
  {
  }

  /** The request line an accepted line is. */
  lemma AcceptedLine(r: Request, line: Text) returns (start: Start)
    requires RequestLine(r, line).0
    ensures start.Legal() && start.Line() == line
  {
    var p := IndexOf(line, SPACE, 0).value;
    var q := IndexOf(line, SPACE, p + 1).value;
    CutAt(line, p, q);
    MethodKnown(line[..p]);
    var version := if line[q + 1..] == VersionString(Http11) then Http11 else Http10;
    start := TargetOf(line[p + 1..q], MethodOf(line[..p]), version);
  }

  lemma MethodKnown(s: Text)
    requires MethodOf(s) != Invalid
    ensures MethodString(MethodOf(s)) == s
  {
  }

  /** processRequestLine accepts exactly the request lines: a method, a target, a version, one space between. */
  lemma AcceptsExactly(r: Request, line: Text)
    ensures RequestLine(r, line).0 <==> exists start: Start :: start.Legal() && start.Line() == line
  {
    if RequestLine(r, line).0 {
      var start := AcceptedLine(r, line);
    }
    forall start: Start | start.Legal() && start.Line() == line ensures RequestLine(r, line).0 {
      ParseStart(r, start);
    }
  }

  lemma NoReturns(start: Start)
    requires start.WellFormed()
    ensures CR !in start.Line()
  {
    MethodRoundTrip(start.verb);
    assert CR !in start.Target();
    assert CR !in VersionString(start.version);
  }

  lemma SecondIndex(m: Text, uri: Text, v: Text)
    requires SPACE !in uri
    ensures IndexOf(m + [SPACE] + uri + [SPACE] + v, SPACE, |m| + 1) == Some(|m| + 1 + |uri|)
  {
    var line := m + [SPACE] + uri + [SPACE] + v;
    assert line[|m| + 1 + |uri|] == SPACE;
    assert forall i :: |m| + 1 <= i < |m| + 1 + |uri| ==> line[i] == uri[i - |m| - 1];
  }

  lemma ParseLine(c: Context, line: Text, t: Text)
    requires OneLine(line) && (c.state == ExpectRequestLine || c.state == ExpectHeaders)
    requires OnLine(c, line).1 == More
    ensures Parse(c, line + CRLF + t) == Parse(OnLine(c, line).0, t)
  {
    LineEnd(line, t);
  }

  const FRESH := Context(ExpectRequestLine, NEW_REQUEST)

  /** The part of a message the parser reads: a request line, field lines, and a line that ends them. */
  datatype Preamble = Preamble(start: Start, fields: seq<Field>, last: Text)
  {
    predicate Legal() {
      && start.Legal() && OneLine(start.Line()) && (forall f :: f in fields ==> f.Legal())
      && OneLine(last) && COLON !in last
    }

    function Bytes(): Text {
      start.Line() + CRLF + Section(fields, last)
    }
  }

  lemma ParseStartLine(start: Start, t: Text)
    requires start.Legal() && OneLine(start.Line())
    ensures Parse(FRESH, start.Line() + CRLF + t) == Parse(Context(ExpectHeaders, Meant(start, [])), t)
  {
    ParseStart(NEW_REQUEST, start);
    assert OnLine(FRESH, start.Line()) == (Context(ExpectHeaders, Meant(start, [])), More);
    ParseLine(FRESH, start.Line(), t);
  }

  lemma ParsePreamble(p: Preamble, body: Text)
    requires p.Legal()
    ensures Parse(FRESH, p.Bytes() + body) == Outcome(Context(GotAll, Meant(p.start, p.fields)), true, body)
  {
    var others := Section(p.fields, p.last) + body;
    assert p.Bytes() + body == p.start.Line() + CRLF + others;
    ParseStartLine(p.start, others);
    ParseSection(Meant(p.start, []), p.fields, p.last, body);
  }

  lemma ParseRendered(start: Start, fields: seq<Field>, body: Text)
    requires start.WellFormed() && forall f :: f in fields ==> f.WellFormed()
    ensures Parse(FRESH, Render(start, fields) + body) == Outcome(Context(GotAll, Meant(start, fields)), true, body)
  {
    NoReturns(start);
    forall f | f in fields ensures f.Legal() {
      WellFormedIsLegal(f);
    }
    ParsePreamble(Preamble(start, fields, []), body);
  }

  // ---------- which inputs are complete ----------

  lemma {:induction false} LeadOf(text: Text) returns (lead: Text)
    ensures text == lead + TrimLeft(text) && forall b :: b in lead ==> IsSpace(b)
    ensures TrimLeft(text) != [] ==> !IsSpace(TrimLeft(text)[0])
  {
    lead := [];
    if text != [] && IsSpace(text[0]) {
      lead := LeadOf(text[1..]);
      lead := [text[0]] + lead;
    }
  }

  lemma {:induction false} TrailOf(text: Text) returns (trail: Text)
    ensures text == TrimRight(text) + trail && forall b :: b in trail ==> IsSpace(b)
    ensures TrimRight(text) != [] ==> !IsSpace(TrimRight(text)[|TrimRight(text)| - 1])
  {
    trail := [];
    if text != [] && IsSpace(text[|text| - 1]) {
      trail := TrailOf(text[..|text| - 1]);
      trail := trail + [text[|text| - 1]];
    }
  }

  /** A text is its trimmed value between whitespace. */
  lemma TrimmedParts(text: Text) returns (lead: Text, value: Text, trail: Text)
    ensures text == lead + value + trail
    ensures (forall b :: b in lead ==> IsSpace(b)) && (forall b :: b in trail ==> IsSpace(b))
    ensures value != [] ==> !IsSpace(value[0]) && !IsSpace(value[|value| - 1])
  {
    var inner := TrimLeft(text);
    lead := LeadOf(text);
    trail := TrailOf(inner);
    value := TrimRight(inner);
    Assoc(lead, value, trail);
    if value != [] {
      assert value[0] == inner[0];
    }
  }

  lemma ColonSplits(line: Text)
    requires COLON in line
    ensures var k := IndexOf(line, COLON, 0);
            k.Some? && COLON !in line[..k.value] && line == line[..k.value] + [COLON] + line[k.value + 1..]
  {
  }

  lemma JoinedField(f: Field, text: Text)
    requires text == f.lead + f.value + f.trail
    ensures f.Line() == f.name + [COLON] + text
  {
    Assoc(f.name + [COLON], f.lead, f.value);
    Assoc(f.name + [COLON], f.lead + f.value, f.trail);
  }

  /** Every line with a colon is a field line. */
  lemma FieldOf(line: Text) returns (f: Field)
    requires OneLine(line) && COLON in line
    ensures f.Legal() && f.Line() == line
  {
    ColonSplits(line);
    var k := IndexOf(line, COLON, 0).value;
    var lead, value, trail := TrimmedParts(line[k + 1..]);
    f := Field(line[..k], lead, value, trail);
    JoinedField(f, line[k + 1..]);
  }

  lemma FirstLine(s: Text)
    requires CrlfFrom(s, 0).Some?
    ensures var p := CrlfFrom(s, 0).value; OneLine(s[..p]) && s == s[..p] + CRLF + s[p + 2..]
  {
  }

  /** A header section that is complete is field lines and a line without a colon. */
  lemma {:induction false} SectionOf(r: Request, s: Text) returns (fields: seq<Field>, last: Text, body: Text)
    requires Parse(Context(ExpectHeaders, r), s).context.state == GotAll
    ensures (forall f :: f in fields ==> f.Legal()) && OneLine(last) && COLON !in last
    ensures s == Section(fields, last) + body
    decreases |s|
  {
    var p := CrlfFrom(s, 0).value;
    var line, rest := s[..p], s[p + 2..];
    FirstLine(s);
    if COLON in line {
      var f := FieldOf(line);
      FieldLine(r, f);
      fields, last, body := SectionOf(r.(headers := r.headers[f.name := f.value]), rest);
      assert ([f] + fields)[1..] == fields;
      Assoc(line + CRLF, Section(fields, last), body);
      fields := [f] + fields;
    } else {
      fields, last, body := [], line, rest;
    }
  }

  /** The request line of an input that is complete, and what follows it. */
  lemma StartOf(s: Text) returns (start: Start, rest: Text)
    requires Parse(FRESH, s).context.state == GotAll
    ensures start.Legal() && OneLine(start.Line()) && s == start.Line() + CRLF + rest
  {
    var k := CrlfFrom(s, 0).value;
    FirstLine(s);
    start := AcceptedLine(NEW_REQUEST, s[..k]);
    rest := s[k + 2..];
  }

  lemma PreambleOf(s: Text) returns (p: Preamble, body: Text)
    requires Parse(FRESH, s).context.state == GotAll
    ensures p.Legal() && s == p.Bytes() + body
  {
    var start, rest := StartOf(s);
    ParseStartLine(start, rest);
    var fields, last, after := SectionOf(Meant(start, []), rest);
    p, body := Preamble(start, fields, last), after;
    Assoc(start.Line() + CRLF, Section(fields, last), body);
  }

  /**
   A fresh parser completes a request on exactly the inputs that begin with a request line,
   field lines and one line without a colon, which need not be empty.
   */
  lemma CompletesExactly(s: Text)
    ensures Parse(FRESH, s).context.state == GotAll <==>
            exists p: Preamble, body: Text :: p.Legal() && s == p.Bytes() + body
  {
    if Parse(FRESH, s).context.state == GotAll {
      var p, body := PreambleOf(s);
    }
    forall p: Preamble, body: Text | p.Legal() && s == p.Bytes() + body
      ensures Parse(FRESH, s).context.state == GotAll
    {
      ParsePreamble(p, body);
    }
  }

  /** Lines, and the empty line that is meant to end them. */
  function UpToBlank(lines: seq<Text>): Text {
    if lines == [] then CRLF else lines[0] + CRLF + UpToBlank(lines[1..])
  }

  lemma {:induction false} SectionEnds(r: Request, lines: seq<Text>, body: Text)
    requires forall l :: l in lines ==> OneLine(l)
    ensures var d := Parse(Context(ExpectHeaders, r), UpToBlank(lines) + body);
            d.context.state == GotAll && |d.rest| >= |body|
            && (d.rest == body <==> forall l :: l in lines ==> COLON in l)
    decreases |lines|
  {
    var c, s := Context(ExpectHeaders, r), UpToBlank(lines) + body;
    if lines == [] {
      assert s == [] + CRLF + body;
      LineEnd([], body);
      assert OnLine(c, []) == (Context(GotAll, r), Complete);
    } else {
      var line, others := lines[0], UpToBlank(lines[1..]) + body;
      assert s == line + CRLF + others && line in lines;
      LineEnd(line, others);
      if COLON in line {
        var f := FieldOf(line);
        FieldLine(r, f);
        SectionEnds(r.(headers := r.headers[f.name := f.value]), lines[1..], body);
        assert forall l :: l in lines ==> l == line || l in lines[1..];
      } else {
        assert |others| > |body|;
      }
    }
  }

  /** The header section ends at its empty line exactly if every line before it has a colon. */
  lemma EndsAtBlankExactly(start: Start, lines: seq<Text>, body: Text)
    requires start.Legal() && OneLine(start.Line()) && forall l :: l in lines ==> OneLine(l)
    ensures var d := Parse(FRESH, start.Line() + CRLF + (UpToBlank(lines) + body));
            d.context.state == GotAll && (d.rest == body <==> forall l :: l in lines ==> COLON in l)
  {
    ParseStartLine(start, UpToBlank(lines) + body);
    SectionEnds(Meant(start, []), lines, body);
  }

  /** A line without a colon cuts the section short: the field lines after it are left in the buffer. */
  lemma FieldsCutOff(start: Start, odd: Text, fields: seq<Field>, body: Text)
    requires start.Legal() && OneLine(start.Line()) && OneLine(odd) && COLON !in odd
    ensures Parse(FRESH, start.Line() + CRLF + (odd + CRLF + (Section(fields, []) + body))) ==
            Outcome(Context(GotAll, Meant(start, [])), true, Section(fields, []) + body)
  {
    var rest := Section(fields, []) + body;
    var p := Preamble(start, [], odd);
    assert p.Bytes() + rest == start.Line() + CRLF + (odd + CRLF + rest);
    ParsePreamble(p, rest);
  }

  /** The request a rendering stands for. */
  function Meant(start: Start, fields: seq<Field>): Request {
    Request(start.verb, start.version, start.path, if start.query.Some? then start.query.value else [],
            FieldMap(map[], fields))
  }

  /**
   Every well-formed request, however cut into chunks, parses back to the same method,
   path, query, version and header map, and leaves exactly the bytes after it.
   */
  lemma ParseInvertsRender(start: Start, fields: seq<Field>, body: Text, chunks: seq<Text>)
    requires start.WellFormed() && forall f :: f in fields ==> f.WellFormed()
    requires chunks != [] && Concat(chunks) == Render(start, fields) + body
    ensures Feed(FRESH, [], chunks) == Outcome(Context(GotAll, Meant(start, fields)), true, body)
  {
    ChunkIndependent(FRESH, [], chunks);
    assert [] + Concat(chunks) == Concat(chunks);
    ParseRendered(start, fields, body);
  }

  /** Of several fields with one name, the last one stays in the map. */
  lemma {:induction false} LastFieldCounts(headers: map<Text, Text>, fields: seq<Field>, i: nat)
    requires i < |fields| && forall j :: i < j < |fields| ==> fields[j].name != fields[i].name
    ensures fields[i].name in FieldMap(headers, fields)
    ensures FieldMap(headers, fields)[fields[i].name] == fields[i].value
    decreases |fields|
  {
    var now := headers[fields[0].name := fields[0].value];
    if i > 0 {
      LastFieldCounts(now, fields[1..], i - 1);
    } else {
      KeptByOthers(now, fields[1..], fields[0].name);
    }
  }

  lemma {:induction false} KeptByOthers(headers: map<Text, Text>, fields: seq<Field>, name: Text)
    requires forall f :: f in fields ==> f.name != name
    ensures name in FieldMap(headers, fields) <==> name in headers
    ensures name in headers ==> FieldMap(headers, fields)[name] == headers[name]
    decreases |fields|
  {
    if fields != [] {
      KeptByOthers(headers[fields[0].name := fields[0].value], fields[1..], name);
    }
  }

  /** getHeader of a rendered request: the value of the last field with that name, or empty if there is none. */
  lemma GetHeaderFindsLast(start: Start, fields: seq<Field>, name: Text)
    ensures (forall f :: f in fields ==> f.name != name) ==> Meant(start, fields).GetHeader(name) == []
    ensures forall i ::
              && 0 <= i < |fields| && fields[i].name == name
              && (forall j :: i < j < |fields| ==> fields[j].name != name)
              ==>
                Meant(start, fields).GetHeader(name) == fields[i].value
  {
    if forall f :: f in fields ==> f.name != name {
      KeptByOthers(map[], fields, name);
    }
    forall i | 0 <= i < |fields| && fields[i].name == name && (forall j :: i < j < |fields| ==> fields[j].name != name)
      ensures Meant(start, fields).GetHeader(name) == fields[i].value
    {
      LastFieldCounts(map[], fields, i);
    }
  }
}
