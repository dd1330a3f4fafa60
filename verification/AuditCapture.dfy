/** What the audit middleware records about one request: its body, whether it is captured, and how many lines
    it leaves. */
module AuditCapture {
  import opened Wrappers
  import opened Utf8
  import opened Text

  const MAX_CAPTURE_BODY := 1024 * 1024

  // ------------------------------------------------------------------
  // Collecting the body
  // ------------------------------------------------------------------

  // One message received by the application. A body part may be absent.
  datatype Message = BodyPart(body: Option<seq<byte>>) | Disconnect

  function Chunk(m: Message): seq<byte> {
    if m.BodyPart? && m.body.Some? then m.body.value else []
  }

  function Join(chunks: seq<seq<byte>>): seq<byte> {
    if chunks == [] then [] else Join(chunks[..|chunks| - 1]) + chunks[|chunks| - 1]
  }

  function First(s: seq<byte>, n: nat): seq<byte> {
    if |s| <= n then s else s[..n]
  }

  class BodyCollector {
    const limit: nat
    var chunks: seq<seq<byte>>
    var total: nat
    var truncated: bool
    ghost var stream: seq<byte>   // everything the application received

    ghost predicate Valid()
      reads this
    {
      && Join(chunks) == First(stream, limit)
      && total == |Join(chunks)|
      && (truncated <==> |stream| > limit)
    }

    constructor (limit: nat)
      ensures Valid() && this.limit == limit && stream == []
    {
      this.limit := limit;
      chunks, total, truncated, stream := [], 0, false, [];
    }

    method Receive(m: Message)
      requires Valid()
      modifies this
      ensures Valid() && stream == old(stream) + Chunk(m)
      ensures m.BodyPart? && m.body.Some? ==> stream == old(stream) + m.body.value
      ensures m.Disconnect? || m.body.None? ==> stream == old(stream)
    {
      if m.BodyPart? {
        var chunk := Chunk(m);
        if |chunk| > 0 && !truncated {
          var remaining := limit - total;
          if |chunk| <= remaining {
            chunks := chunks + [chunk];
            total := total + |chunk|;
          } else {
            chunks := chunks + [chunk[..remaining]];
            total := total + remaining;
            truncated := true;
          }
        }
      }
      stream := stream + Chunk(m);
      JoinGrows(old(chunks), chunks);
      if !old(truncated) {
        FirstGrows(old(stream), Chunk(m), limit);
      }
    }

    /** The body as recorded, whatever the chunking was. */
    method Body() returns (body: seq<byte>)
      requires Valid()
      ensures body == if |stream| <= limit then stream else stream[..limit]
    {
      body := if chunks == [] then [] else Join(chunks);
    }
  }

  lemma JoinGrows(before: seq<seq<byte>>, after: seq<seq<byte>>)
    ensures |after| == |before| + 1 && after[..|before|] == before ==> Join(after) == Join(before) + after[|before|]
  {
  }

  lemma FirstGrows(s: seq<byte>, chunk: seq<byte>, n: nat)
    requires |s| <= n
    ensures First(s + chunk, n) == s + (if |chunk| <= n - |s| then chunk else chunk[..n - |s|])
  {
  }

  // ------------------------------------------------------------------
  // What is recorded about the body
  // ------------------------------------------------------------------

  datatype MediaType = Json | OctetStream | OtherMedia

  datatype ValueType = JsonValue | BinaryValue | StringValue

  function DetectValueType(body: seq<byte>, media: MediaType): ValueType {
    match media
    case Json => JsonValue
    case OctetStream => BinaryValue
    case OtherMedia => if Decode(body).Some? then StringValue else BinaryValue
  }

  lemma {:induction false} EncodedPrefix(s: string, t: string)
    requires Encode(t) <= Encode(s)
    ensures t <= s
  {
    if t != [] {
      EncodeLength(s);
      EncodeLength(t);
      var rest := Encode(s)[|Encode(t)|..];
      Regroup(EncodeChar(t[0]), Encode(t[1..]), rest);
      assert EncodeChar(t[0]) + (Encode(t[1..]) + rest) == EncodeChar(s[0]) + Encode(s[1..]);
      EncodeCharPrefixFree(t[0], s[0], Encode(t[1..]) + rest, Encode(s[1..]));
      EncodedPrefix(s[1..], t[1..]);
      assert t == [t[0]] + t[1..] && s == [s[0]] + s[1..];
    }
  }

  lemma EncodedStart(s: string, k: nat)
    requires k <= |s|
    ensures Encode(s[..k]) <= Encode(s)
  {
    EncodeConcat(s[..k], s[k..]);
    assert s[..k] + s[k..] == s;
  }

  ghost predicate CutBetweenCharacters(s: string, limit: nat) {
    |Encode(s)| <= limit || exists k :: 0 <= k <= |s| && |Encode(s[..k])| == limit
  }

  /** What is left of a text at the limit is text exactly when the cut falls between two characters. */
  lemma CutText(s: string, limit: nat)
    ensures Decode(First(Encode(s), limit)).Some? <==> CutBetweenCharacters(s, limit)
  {
    var cut := First(Encode(s), limit);
    DecodesExactlyText(cut);
    if |Encode(s)| > limit {
      if t :| Encode(t) == cut {
        EncodedPrefix(s, t);
        assert s[..|t|] == t;
      }
      if k :| 0 <= k <= |s| && |Encode(s[..k])| == limit {
        EncodedStart(s, k);
        assert Encode(s[..k]) == cut;
      }
    }
  }

  // ------------------------------------------------------------------
  // Whether a request is captured
  // ------------------------------------------------------------------

  predicate IsWrite(verb: string) {
    verb == "PUT" || verb == "POST" || verb == "DELETE"
  }

  predicate DecideCapture(verb: string, path: string, level: nat) {
    if level == 0 then false
    else
      var isAdmin := "/api/v1/admin/" <= path;
      var isPublish := Contains(path, "/publish/");
      if level == 1 then isAdmin || (!isPublish && IsWrite(verb))
      else true
  }

  // --- The decision in terms of path segments ---

  predicate Plain(segment: string) { Without(segment, '/') }

  predicate AllPlain(segments: seq<string>) { forall i :: 0 <= i < |segments| ==> Plain(segments[i]) }

  function Path(segments: seq<string>): string {
    if segments == [] then "" else ['/'] + segments[0] + Path(segments[1..])
  }

  predicate IsInner(segments: seq<string>, name: string) {
    exists i :: 0 <= i < |segments| - 1 && segments[i] == name
  }

  /** Position by position: a slash, the first segment, the rest. */
  lemma PathAt(segments: seq<string>, i: nat)
    requires segments != [] && i < |Path(segments)|
    ensures |Path(segments)| == 1 + |segments[0]| + |Path(segments[1..])|
    ensures i == 0 ==> Path(segments)[i] == '/'
    ensures 1 <= i <= |segments[0]| ==> Path(segments)[i] == segments[0][i - 1]
    ensures i > |segments[0]| ==> Path(segments)[i] == Path(segments[1..])[i - 1 - |segments[0]|]
  {
  }

  lemma PathStarts(segments: seq<string>)
    ensures Path(segments) == "" <==> segments == []
    ensures segments != [] ==> Path(segments)[0] == '/'
  {
  }

  function Between(name: string): string { ['/'] + name + ['/'] }

  /** A slash-free name between two slashes at the very start of a path is its first segment. */
  lemma StartIsSegment(segments: seq<string>, name: string)
    requires AllPlain(segments) && Plain(name) && segments != []
    requires OccursAt(Path(segments), Between(name), 0)
    ensures |segments| > 1 && segments[0] == name
  {
    PathStarts(segments[1..]);
    var text, part := Path(segments), Between(name);
    forall j | 0 <= j < |part|
      ensures text[j] == part[j]
    {
      assert text[0 + j] == part[j];
    }
    SameUpToSlash(name, segments[0], ['/'], Path(segments[1..]));
  }

  lemma SegmentIsStart(segments: seq<string>)
    requires |segments| > 1
    ensures OccursAt(Path(segments), Between(segments[0]), 0)
  {
    PathStarts(segments[1..]);
    PrefixGrows(['/'] + segments[0], ['/'], Path(segments[1..]));
  }

  lemma OccursInside(segments: seq<string>, name: string, k: nat)
    requires AllPlain(segments) && segments != [] && 0 < k && OccursAt(Path(segments), Between(name), k)
    ensures k > |segments[0]| && OccursAt(Path(segments[1..]), Between(name), k - 1 - |segments[0]|)
  {
    var path, part, s := Path(segments), Between(name), segments[0];
    PathAt(segments, k);
    assert path[k + 0] == part[0] == '/';
    forall j | 0 <= j < |part|
      ensures Path(segments[1..])[k - 1 - |s| + j] == part[j]
    {
      PathAt(segments, k + j);
      assert path[k + j] == part[j];
    }
  }

  lemma OccursLater(segments: seq<string>, part: string, k: nat)
    requires segments != [] && OccursAt(Path(segments[1..]), part, k)
    ensures OccursAt(Path(segments), part, 1 + |segments[0]| + k)
  {
    var rest := Path(segments[1..]);
    forall j | 0 <= j < |part|
      ensures Path(segments)[1 + |segments[0]| + k + j] == part[j]
    {
      assert rest[k + j] == part[j];
      PathAt(segments, 1 + |segments[0]| + k + j);
    }
  }

  /** The substring test finds a name exactly when some segment other than the last is that name. */
  lemma {:induction false} ContainsSegment(segments: seq<string>, name: string)
    requires AllPlain(segments) && Plain(name)
    ensures Contains(Path(segments), Between(name)) <==> IsInner(segments, name)
  {
    var part := Between(name);
    if segments != [] {
      var path, rest := Path(segments), segments[1..];
      ContainsSegment(rest, name);
      if k :| 0 <= k <= |path| && OccursAt(path, part, k) {
        if k == 0 {
          StartIsSegment(segments, name);
        } else {
          OccursInside(segments, name, k);
          assert Contains(Path(rest), part);
          var i :| 0 <= i < |rest| - 1 && rest[i] == name;
          assert segments[i + 1] == name;
        }
      }
      if i :| 0 <= i < |segments| - 1 && segments[i] == name {
        if i == 0 {
          SegmentIsStart(segments);
        } else {
          assert rest[i - 1] == name;
          var k :| 0 <= k <= |Path(rest)| && OccursAt(Path(rest), part, k);
          OccursLater(segments, part, k);
        }
      }
    }
  }

  lemma {:induction false} StartsWithSegments(a: seq<string>, segments: seq<string>)
    requires AllPlain(a) && AllPlain(segments)
    ensures Path(a) + ['/'] <= Path(segments) <==> |a| < |segments| && segments[..|a|] == a
  {
    PathStarts(segments);
    if a == [] {
      assert Path(a) + ['/'] == ['/'];
    } else if segments != [] {
      StartsWithSegments(a[1..], segments[1..]);
      FirstSegment(a, segments);
      FirstOfSlice(a, segments);
    }
  }

  lemma FirstOfSlice(a: seq<string>, b: seq<string>)
    requires a != [] && b != []
    ensures |a| <= |b| ==> (b[..|a|] == a <==> b[0] == a[0] && b[1..][..|a| - 1] == a[1..])
  {
    if |a| <= |b| {
      assert b[..|a|] == [b[0]] + b[1..][..|a| - 1];
      assert a == [a[0]] + a[1..];
    }
  }

  lemma FirstSegment(a: seq<string>, segments: seq<string>)
    requires AllPlain(a) && AllPlain(segments) && a != [] && segments != []
    ensures Path(a) + ['/'] <= Path(segments) <==> a[0] == segments[0] && Path(a[1..]) + ['/'] <= Path(segments[1..])
  {
    PathStarts(a[1..]);
    PathStarts(segments[1..]);
    var u, v := Path(a[1..]) + ['/'], Path(segments[1..]);
    assert u[0] == '/';
    Regroup(['/'] + a[0], Path(a[1..]), ['/']);
    if ['/'] + a[0] + u <= ['/'] + segments[0] + v {
      SameUpToSlash(a[0], segments[0], u, v);
    }
    if a[0] == segments[0] && u <= v {
      PrefixGrows(['/'] + a[0], u, v);
    }
  }

  lemma PrefixGrows(s: string, u: string, v: string)
    requires u <= v
    ensures s + u <= s + v
  {
  }

  lemma SameUpToSlash(s: string, t: string, u: string, v: string)
    requires Plain(s) && Plain(t) && u != "" && u[0] == '/' && (v == "" || v[0] == '/')
    requires ['/'] + s + u <= ['/'] + t + v
    ensures s == t && u <= v
  {
    var x, y := ['/'] + s + u, ['/'] + t + v;
    SlashAfter(s, u);
    SlashAfter(t, v);
    if |s| < |t| {
      assert false;
    }
    if |t| < |s| {
      assert false;
    }
    assert s == x[1..1 + |s|] == y[1..1 + |s|] == t;
    assert u == x[1 + |s|..] && v == y[1 + |s|..];
  }

  /** In a slash, a slash-free name and more, the second slash comes right after the name, if at all. */
  lemma SlashAfter(s: string, u: string)
    requires Plain(s) && (u == "" || u[0] == '/')
    ensures forall j :: 1 <= j <= |s| ==> (['/'] + s + u)[j] != '/'
    ensures u != "" ==> (['/'] + s + u)[1 + |s|] == '/'
  {
  }

  const ADMIN_SEGMENTS := ["api", "v1", "admin"]

  lemma LevelOneBySegments(verb: string, segments: seq<string>)
    requires AllPlain(segments)
    ensures DecideCapture(verb, Path(segments), 1) <==>
            || (|segments| > 3 && segments[..3] == ADMIN_SEGMENTS)
            || (IsWrite(verb) && !IsInner(segments, "publish"))
  {
    PublishPart(segments);
    AdminPart(segments);
  }

  lemma WritingVerbs(verb: string)
    ensures IsWrite(verb) <==> verb in {"PUT", "POST", "DELETE"}
  {
  }

  /** Level 1 captures admin calls, and writes in whose path no segment but the last is "publish". */
  lemma LevelOneCaptures(verb: string, segments: seq<string>)
    requires AllPlain(segments)
    ensures DecideCapture(verb, Path(segments), 1) <==>
            || (|segments| > 3 && segments[..3] == ["api", "v1", "admin"])
            || (verb in {"PUT", "POST", "DELETE"} && !IsInner(segments, "publish"))
  {
    WritingVerbs(verb);
    LevelOneBySegments(verb, segments);
  }

  lemma PublishPart(segments: seq<string>)
    requires AllPlain(segments)
    ensures Contains(Path(segments), "/publish/") <==> IsInner(segments, "publish")
  {
    ContainsSegment(segments, "publish");
    assert Between("publish") == "/publish/";
  }

  lemma AdminPart(segments: seq<string>)
    requires AllPlain(segments)
    ensures "/api/v1/admin/" <= Path(segments) <==> |segments| > 3 && segments[..3] == ADMIN_SEGMENTS
  {
    AdminPath();
    StartsWith("/api/v1/admin/", ADMIN_SEGMENTS, segments);
  }

  lemma StartsWith(prefix: string, a: seq<string>, segments: seq<string>)
    requires AllPlain(a) && AllPlain(segments) && Path(a) + ['/'] == prefix
    ensures prefix <= Path(segments) <==> |segments| > |a| && segments[..|a|] == a
  {
    StartsWithSegments(a, segments);
  }

  lemma AdminPath()
    ensures AllPlain(ADMIN_SEGMENTS)
    ensures Path(ADMIN_SEGMENTS) + ['/'] == "/api/v1/admin/"
  {
    assert ADMIN_SEGMENTS[1..] == ["v1", "admin"];
    assert ["v1", "admin"][1..] == ["admin"];
    assert Path(["admin"]) == "/admin";
    assert Path(["v1", "admin"]) == "/v1/admin";
    assert Path(ADMIN_SEGMENTS) == "/api/v1/admin";
  }

  /** Meant to leave channel publishing to level 2, the test also skips every write in a namespace called
      "publish", and every operation below a key called so. */
  lemma WritesMissedAtLevelOne(verb: string, ns: string, kind: string, key: string, op: string)
    requires IsWrite(verb) && Plain(ns) && Plain(kind) && Plain(key) && Plain(op)
    ensures DecideCapture(verb, Path(["api", "v1", "ns", ns, kind, key]), 1) <==> ns != "publish" && kind != "publish"
    ensures DecideCapture(verb, Path(["api", "v1", "ns", ns, kind, key, op]), 1) <==>
            ns != "publish" && kind != "publish" && key != "publish"
  {
    var short, long := ["api", "v1", "ns", ns, kind, key], ["api", "v1", "ns", ns, kind, key, op];
    LevelOneCaptures(verb, short);
    LevelOneCaptures(verb, long);
    assert short[2] == "ns" && long[2] == "ns" && ADMIN_SEGMENTS[2] == "admin";
    assert short[..3][2] == short[2] && long[..3][2] == long[2];
    assert short[3] == ns && short[4] == kind;
    assert long[3] == ns && long[4] == kind && long[5] == key;
  }

  /** Level 0 captures nothing, and from level 2 on everything is captured. */
  lemma OtherLevels(verb: string, path: string, level: nat)
    ensures level == 0 ==> !DecideCapture(verb, path, level)
    ensures level >= 2 ==> DecideCapture(verb, path, level)
  {
  }

  lemma HigherLevelsCaptureMore(verb: string, path: string, low: nat, high: nat)
    requires low <= high && DecideCapture(verb, path, low)
    ensures DecideCapture(verb, path, high)
  {
  }

  // ------------------------------------------------------------------
  // The lines of a request
  // ------------------------------------------------------------------

  datatype Event = Event(name: string, errorCode: Option<string>)

  const API_CALL := Event("api_call", None)

  // `marks` are the events its hooks set.
  datatype Request = Http(verb: string, path: string, media: MediaType, marks: seq<Event>, messages: seq<Message>)
                   | WebSocket

  // The recorded hash is a function of the bytes it is taken of.
  datatype Value = Value(size: nat, valueType: ValueType, hashed: seq<byte>)

  datatype Line = Line(event: Event, verb: string, path: string, value: Option<Value>)

  datatype Config = Config(level: nat, excludePaths: set<string>)

  function Stream(messages: seq<Message>): seq<byte> {
    if messages == [] then [] else Stream(messages[..|messages| - 1]) + Chunk(messages[|messages| - 1])
  }

  /** The bytes of the body parts, in order; an absent part or a disconnect adds nothing. */
  lemma StreamGrows(messages: seq<Message>, bytes: seq<byte>)
    ensures Stream([]) == []
    ensures Stream(messages + [BodyPart(Some(bytes))]) == Stream(messages) + bytes
    ensures Stream(messages + [BodyPart(None)]) == Stream(messages) == Stream(messages + [Disconnect])
  {
    assert forall m :: (messages + [m])[..|messages|] == messages;
  }

  /** The last event marked, or the one carried in from before. */
  function Marked(carried: Option<Event>, marks: seq<Event>): Option<Event> {
    if marks == [] then carried else Some(marks[|marks| - 1])
  }

  function ValueOf(verb: string, media: MediaType, body: seq<byte>): Option<Value> {
    if IsWrite(verb) && body != [] then Some(Value(|body|, DetectValueType(body, media), body)) else None
  }

  /** What the request promises to leave: a captured one a line, any other a line if an event is marked. */
  function Expected(config: Config, carried: Option<Event>, r: Request): seq<Line> {
    if r.WebSocket? || r.path in config.excludePaths then []
    else
      var event := Marked(carried, r.marks);
      var body := First(Stream(r.messages), MAX_CAPTURE_BODY);
      if DecideCapture(r.verb, r.path, config.level) then
        [Line(if event.Some? then event.value else API_CALL, r.verb, r.path, ValueOf(r.verb, r.media, body))]
      else if event.Some? then [Line(event.value, r.verb, r.path, None)]
      else []
  }

  class AuditMiddleware {
    const config: Config
    var pending: Option<Event>
    var lines: seq<Line>

    constructor (config: Config)
      ensures this.config == config && pending == None && lines == []
    {
      this.config := config;
      pending, lines := None, [];
    }

    method SetPendingEvent(event: Event)
      modifies this`pending
      ensures pending == Some(event)
    {
      pending := Some(event);
    }

    method ConsumePendingEvent() returns (event: Option<Event>)
      modifies this`pending
      ensures event == old(pending) && pending == None
    {
      event := pending;
      if event.Some? {
        pending := None;
      }
    }

    /** The application's hooks. */
    method RunHooks(marks: seq<Event>)
      modifies this`pending
      ensures pending == Marked(old(pending), marks)
    {
      for i := 0 to |marks|
        invariant pending == Marked(old(pending), marks[..i])
      {
        SetPendingEvent(marks[i]);
      }
      assert marks[..|marks|] == marks;
    }

    method PassWithHeader(r: Request, recordPending: bool)
      requires r.Http?
      modifies this
      ensures pending == None
      ensures var event := Marked(old(pending), r.marks);
        lines == old(lines) + if recordPending && event.Some? then [Line(event.value, r.verb, r.path, None)] else []
    {
      RunHooks(r.marks);
      var event := ConsumePendingEvent();
      if recordPending && event.Some? {
        lines := lines + [Line(event.value, r.verb, r.path, None)];
      }
    }

    /** One request leaves its own lines, and an HTTP request leaves no pending event. A WebSocket and an excluded
        path leave no line. Off the excluded paths a request that is not captured leaves a line exactly if an
        event is pending at its end, the last one marked or else one from before; a captured request
        leaves a line always, with that event, its verb and path and the first megabyte of its body. */
    method Call(r: Request)
      modifies this
      ensures pending == if r.Http? then None else old(pending)
      ensures lines == old(lines) + Expected(config, old(pending), r)
      ensures r.WebSocket? || r.path in config.excludePaths ==> lines == old(lines)
      ensures r.Http? && r.path !in config.excludePaths && !DecideCapture(r.verb, r.path, config.level) ==>
        && (r.marks == [] && old(pending).None? ==> lines == old(lines))
        && (r.marks == [] && old(pending).Some? ==>
              lines == old(lines) + [Line(old(pending).value, r.verb, r.path, None)])
        && (r.marks != [] ==> lines == old(lines) + [Line(r.marks[|r.marks| - 1], r.verb, r.path, None)])
      ensures r.Http? && r.path !in config.excludePaths && DecideCapture(r.verb, r.path, config.level) ==>
        && |lines| == |old(lines)| + 1 && lines[..|old(lines)|] == old(lines)
        && var line, stream := lines[|old(lines)|], Stream(r.messages);
        && line.verb == r.verb && line.path == r.path
        && (r.marks != [] ==> line.event == r.marks[|r.marks| - 1])
        && (r.marks == [] && old(pending).Some? ==> line.event == old(pending).value)
        && (r.marks == [] && old(pending).None? ==> line.event == Event("api_call", None))
        && (line.value.Some? <==> r.verb in {"PUT", "POST", "DELETE"} && stream != [])
        && (line.value.Some? ==>
              && line.value.value.hashed == (if |stream| <= 1048576 then stream else stream[..1048576])
              && line.value.value.size == |line.value.value.hashed|
              && (r.media == Json ==> line.value.value.valueType == JsonValue)
              && (r.media == OctetStream ==> line.value.value.valueType == BinaryValue)
              && (r.media == OtherMedia && Decode(line.value.value.hashed).Some? ==>
                    line.value.value.valueType == StringValue)
              && (r.media == OtherMedia && Decode(line.value.value.hashed).None? ==>
                    line.value.value.valueType == BinaryValue))
    {
      if r.WebSocket? {
        return;
      }
      if r.path in config.excludePaths {
        PassWithHeader(r, false);
        return;
      }
      if !DecideCapture(r.verb, r.path, config.level) {
        PassWithHeader(r, true);
        return;
      }
      var collector := new BodyCollector(MAX_CAPTURE_BODY);
      RunHooks(r.marks);
      ReadBody(r.messages, collector);
      var body := collector.Body();
      var value := None;
      if IsWrite(r.verb) && |body| > 0 {
        value := Some(Value(|body|, DetectValueType(body, r.media), body));
      }
      var event := ConsumePendingEvent();
      lines := lines + [Line(if event.Some? then event.value else API_CALL, r.verb, r.path, value)];
    }
  }

  /** The application reads as much of the body as it wants, through the collector. */
  method ReadBody(messages: seq<Message>, collector: BodyCollector)
    requires collector.Valid() && collector.stream == []
    modifies collector
    ensures collector.Valid() && collector.stream == Stream(messages)
  {
    for i := 0 to |messages|
      invariant collector.Valid() && collector.stream == Stream(messages[..i])
    {
      collector.Receive(messages[i]);
      assert messages[..i + 1][..i] == messages[..i];
    }
    assert messages[..|messages|] == messages;
  }

  function AllExpected(config: Config, requests: seq<Request>): seq<Line> {
    if requests == [] then []
    else AllExpected(config, requests[..|requests| - 1]) + Expected(config, None, requests[|requests| - 1])
  }

  /** Requests served one after the other in one context: each leaves the lines it would leave alone. */
  method Serve(config: Config, requests: seq<Request>) returns (lines: seq<Line>)
    ensures lines == AllExpected(config, requests)
  {
    var middleware := new AuditMiddleware(config);
    for i := 0 to |requests|
      invariant fresh(middleware) && middleware.config == config && middleware.pending == None
      invariant middleware.lines == AllExpected(config, requests[..i])
    {
      middleware.Call(requests[i]);
      assert requests[..i + 1][..i] == requests[..i];
    }
    assert requests[..|requests|] == requests;
    return middleware.lines;
  }

  lemma TextValue(verb: string, s: string, limit: nat)
    requires IsWrite(verb) && s != "" && limit > 0
    ensures var value := ValueOf(verb, OtherMedia, First(Encode(s), limit));
      && value.Some?
      && value.value.size == (if |Encode(s)| <= limit then |Encode(s)| else limit)
      && (value.value.valueType == StringValue <==> CutBetweenCharacters(s, limit))
  {
    EncodeLength(s);
    CutText(s, limit);
  }

  lemma CapturedLine(config: Config, carried: Option<Event>, r: Request)
    requires r.Http? && r.path !in config.excludePaths && DecideCapture(r.verb, r.path, config.level)
    ensures |Expected(config, carried, r)| == 1
    ensures Expected(config, carried, r)[0].value ==
      ValueOf(r.verb, r.media, First(Stream(r.messages), MAX_CAPTURE_BODY))
  {
  }

  /** A captured write of a text is recorded with its size up to the limit, and as text exactly if it fits or is
      cut between two characters: a longer text cut inside a character is recorded as binary. */
  lemma TextIsRecordedAsText(config: Config, carried: Option<Event>, r: Request, s: string)
    requires r.Http? && r.media == OtherMedia && r.path !in config.excludePaths
    requires IsWrite(r.verb) && DecideCapture(r.verb, r.path, config.level)
    requires s != "" && Stream(r.messages) == Encode(s)
    ensures |Expected(config, carried, r)| == 1 && Expected(config, carried, r)[0].value.Some?
    ensures var value := Expected(config, carried, r)[0].value.value;
      && value.size == (if |Encode(s)| <= MAX_CAPTURE_BODY then |Encode(s)| else MAX_CAPTURE_BODY)
      && (value.valueType == StringValue <==> CutBetweenCharacters(s, MAX_CAPTURE_BODY))
  {
    CapturedLine(config, carried, r);
    TextValue(r.verb, s, MAX_CAPTURE_BODY);
  }

  /** At level 2 the audit log holds one line for every HTTP request off the excluded paths. */
  lemma {:induction false} LevelTwoRecordsEverything(config: Config, requests: seq<Request>)
    requires config.level >= 2
    ensures |AllExpected(config, requests)| == |Audited(config, requests)|
    ensures forall i :: 0 <= i < |Audited(config, requests)| ==>
              AllExpected(config, requests)[i].path == Audited(config, requests)[i].path
  {
    if requests != [] {
      LevelTwoRecordsEverything(config, requests[..|requests| - 1]);
    }
  }

  function Audited(config: Config, requests: seq<Request>): (r: seq<Request>)
    ensures forall i :: 0 <= i < |r| ==> r[i].Http? && r[i].path !in config.excludePaths
  {
    if requests == [] then []
    else
      var last := requests[|requests| - 1];
      Audited(config, requests[..|requests| - 1]) +
      if last.Http? && last.path !in config.excludePaths then [last] else []
  }
}
