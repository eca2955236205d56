/** The SSE back end's message shapes that carry logic: the subscription record and its depth
    default, the stream query parser that turns `?streams=` / `?symbols=` into stream
    definitions, and the `event:`/`data:` framing of outbound messages. JSON bodies are opaque
    strings supplied by the caller. */
module Message {
  import opened Common
  import opened Text

  // ---------------------------------------------------------------------------------------
  // Subscriptions

  /** Connection identifiers are opaque UUIDs. */
  type ClientId = nat

  datatype Subscription = Subscription(
    streamId: string,
    symbol: string,
    dataType: DataType,
    maxLevels: U32,
    clientId: ClientId)

  /** `SSESubscription::new`: the depth defaults to 20 when absent; every other field is kept. */
  function NewSubscription(streamId: string, symbol: string, dataType: DataType,
                           maxLevels: Option<U32>, clientId: ClientId): (s: Subscription)
    ensures maxLevels.None? ==> s.maxLevels == DefaultMaxLevels
    ensures maxLevels.Some? ==> s.maxLevels == maxLevels.value
    ensures s.streamId == streamId && s.symbol == symbol && s.dataType == dataType
    ensures s.clientId == clientId
  {
    Subscription(streamId, symbol, dataType, maxLevels.GetOr(DefaultMaxLevels), clientId)
  }

  // ---------------------------------------------------------------------------------------
  // Stream query parsing

  /** The query string of the SSE endpoint: `streams=BTCUSD:MBP:20,ETHUSD:MBO:10`,
      `symbols=BTCUSD,ETHUSD`, `data_type=MBO`, `max_levels=10`. */
  datatype StreamQuery = StreamQuery(
    streams: Option<string>,
    symbols: Option<string>,
    dataType: Option<string>,
    maxLevels: Option<U32>)

  /** One requested stream: (symbol, view kind, depth). */
  datatype StreamDef = StreamDef(symbol: string, dataType: DataType, maxLevels: U32)

  /** `get_default_data_type`: case-sensitive, only the exact text "MBO" selects MBO. */
  function DefaultDataType(q: StreamQuery): (d: DataType)
    ensures d == MBO <==> q.dataType == Some("MBO")
  {
    match q.dataType
    case Some(t) => if t == "MBO" then MBO else MBP
    case None => MBP
  }

  function DefaultLevels(q: StreamQuery): U32 {
    q.maxLevels.GetOr(DefaultMaxLevels)
  }

  /** The view-kind field of a stream definition: case-insensitive, anything else is MBP. */
  function FieldDataType(field: string): (d: DataType)
    ensures d == MBO <==> ToUpper(field) == "MBO"
  {
    if ToUpper(field) == "MBO" then MBO else MBP
  }

  /** One comma-separated segment of `streams`: trimmed, then split at ':' into symbol,
      optional view kind and optional depth. */
  function ParseStreamDef(q: StreamQuery, segment: string): StreamDef {
    var parts := Split(Trim(segment), ':');
    var symbol := parts[0];
    var dataType := if |parts| >= 2 then FieldDataType(parts[1]) else DefaultDataType(q);
    var levels := if |parts| >= 3 then ParseU32(parts[2]).GetOr(DefaultLevels(q))
                  else DefaultLevels(q);
    StreamDef(symbol, dataType, levels)
  }

  /** What `parse_streams` returns, stated declaratively: with `streams`, one definition per
      comma-separated segment; else with `symbols`, one per trimmed symbol with the defaults;
      else nothing. */
  function StreamsOf(q: StreamQuery): seq<StreamDef> {
    if q.streams.Some? then
      var segments := Split(q.streams.value, ',');
      seq(|segments|, i requires 0 <= i < |segments| => ParseStreamDef(q, segments[i]))
    else if q.symbols.Some? then
      var names := Split(q.symbols.value, ',');
      seq(|names|, i requires 0 <= i < |names| =>
        StreamDef(Trim(names[i]), DefaultDataType(q), DefaultLevels(q)))
    else []
  }

  /** `StreamQuery::parse_streams`: builds the list by pushing inside a loop over the segments. */
  method ParseStreams(q: StreamQuery) returns (streams: seq<StreamDef>)
    ensures streams == StreamsOf(q)
    ensures q.streams.Some? ==> |streams| == |Split(q.streams.value, ',')|
    ensures q.streams.None? && q.symbols.Some? ==> |streams| == |Split(q.symbols.value, ',')|
    ensures q.streams.None? && q.symbols.None? ==> streams == []
  {
    streams := [];
    if q.streams.Some? {
      var segments := Split(q.streams.value, ',');
      var i := 0;
      while i < |segments|
        invariant 0 <= i <= |segments|
        invariant |streams| == i
        invariant forall k :: 0 <= k < i ==> streams[k] == ParseStreamDef(q, segments[k])
      {
        var def := ParseSegment(q, segments[i]);
        streams := streams + [def];
        i := i + 1;
      }
      StreamsFromSegments(q, streams);
    } else if q.symbols.Some? {
      var dataType := DefaultDataType(q);
      var levels := DefaultLevels(q);
      var names := Split(q.symbols.value, ',');
      var i := 0;
      while i < |names|
        invariant 0 <= i <= |names|
        invariant |streams| == i
        invariant forall k :: 0 <= k < i ==> streams[k] == StreamDef(Trim(names[k]), dataType, levels)
      {
        streams := streams + [StreamDef(Trim(names[i]), dataType, levels)];
        i := i + 1;
      }
      StreamsFromSymbols(q, streams);
    }
  }

  /** The body of the `streams` loop of `parse_streams`: split the trimmed segment at ':',
      take the symbol, the kind when present, and the depth when present and parsable. The
      split always yields a first part, so the `parts.len() >= 1` test always passes. */
  method ParseSegment(q: StreamQuery, segment: string) returns (def: StreamDef)
    ensures def == ParseStreamDef(q, segment)
  {
    var parts := Split(Trim(segment), ':');
    var symbol := parts[0];
    var dataType := if |parts| >= 2 then FieldDataType(parts[1]) else DefaultDataType(q);
    var levels := DefaultLevels(q);
    if |parts| >= 3 {
      var parsed := ParseU32(parts[2]);
      if parsed.Some? { levels := parsed.value; }
    }
    def := StreamDef(symbol, dataType, levels);
  }

  /** A list with one parsed definition per segment of `streams` is what the query asks for. */
  lemma StreamsFromSegments(q: StreamQuery, defs: seq<StreamDef>)
    requires q.streams.Some?
    requires |defs| == |Split(q.streams.value, ',')|
    requires forall k :: 0 <= k < |defs| ==> defs[k] == ParseStreamDef(q, Split(q.streams.value, ',')[k])
    ensures defs == StreamsOf(q)
  {
  }

  /** Without `streams`, a list with one defaulted definition per symbol is what the query
      asks for. */
  lemma StreamsFromSymbols(q: StreamQuery, defs: seq<StreamDef>)
    requires q.streams.None? && q.symbols.Some?
    requires |defs| == |Split(q.symbols.value, ',')|
    requires forall k :: 0 <= k < |defs| ==>
      defs[k] == StreamDef(Trim(Split(q.symbols.value, ',')[k]), DefaultDataType(q), DefaultLevels(q))
    ensures defs == StreamsOf(q)
  {
  }

  /** An empty segment (as in "A,,B") still yields a definition, with an empty symbol and the
      query's defaults. */
  lemma EmptySegment(q: StreamQuery)
    ensures ParseStreamDef(q, "") == StreamDef("", DefaultDataType(q), DefaultLevels(q))
  {
    assert Trim("") == "";
    assert Split("", ':') == [""];
  }

  /** A segment without ':' is all symbol; kind and depth come from the query. */
  lemma SymbolOnlySegment(q: StreamQuery, segment: string)
    requires ':' !in segment
    ensures ParseStreamDef(q, segment) == StreamDef(Trim(segment), DefaultDataType(q), DefaultLevels(q))
  {
    var t := Trim(segment);
    assert forall k :: 0 <= k < |t| ==> t[k] == segment[LeadingWhitespace(segment) + k];
    assert ':' !in t;
    SplitOfJoin([t], ':');
  }

  /** An unparsable depth ("S:MBO:-5", "S:MBO: 7", overflow) falls back to the query default. */
  lemma BadDepthFallsBack(q: StreamQuery, segment: string)
    requires |Split(Trim(segment), ':')| >= 3
    requires ParseU32(Split(Trim(segment), ':')[2]).None?
    ensures ParseStreamDef(q, segment).maxLevels == DefaultLevels(q)
  {
  }

  /** The view-kind field ignores case while the `data_type` default does not. */
  lemma KindCaseSensitivity()
    ensures FieldDataType("mbo") == MBO
    ensures DefaultDataType(StreamQuery(None, None, Some("mbo"), None)) == MBP
  {
    UpperIsMbo("mbo");
  }

  function DataTypeName(d: DataType): string {
    match d
    case MBO => "MBO"
    case MBP => "MBP"
  }

  /** A definition written back in the query's own notation, `SYMBOL:KIND:DEPTH`. */
  function FormatStreamDef(d: StreamDef): string {
    d.symbol + ":" + DataTypeName(d.dataType) + ":" + NatToString(d.maxLevels)
  }

  /** Symbols the notation can carry: no separator characters and no surrounding blanks. */
  predicate PlainSymbol(s: string) {
    ':' !in s && ',' !in s && (|s| > 0 ==> !IsWhitespace(s[0]) && !IsWhitespace(s[|s| - 1]))
  }

  /** Parsing a formatted definition gives the definition back, whatever the query defaults. */
  lemma ParseOfFormattedDef(q: StreamQuery, d: StreamDef)
    requires PlainSymbol(d.symbol)
    ensures ParseStreamDef(q, FormatStreamDef(d)) == d
  {
    FormattedIsTrimmed(d);
    FormattedFields(d);
    UpperIsMbo(DataTypeName(d.dataType));
    ParseOfFormatted(d.maxLevels);
  }

  /** A formatted definition has no blank at either end. */
  lemma FormattedIsTrimmed(d: StreamDef)
    requires PlainSymbol(d.symbol)
    ensures Trim(FormatStreamDef(d)) == FormatStreamDef(d)
  {
    var digits := NatToString(d.maxLevels);
    NatToStringDigits(d.maxLevels);
    var f := FormatStreamDef(d);
    assert !IsWhitespace(digits[|digits| - 1]) by { assert IsDigit(digits[|digits| - 1]); }
    assert f[|f| - 1] == digits[|digits| - 1];
    assert |d.symbol| == 0 ==> f[0] == ':';
    assert |d.symbol| > 0 ==> f[0] == d.symbol[0];
    TrimOfTrimmed(f);
  }

  /** A formatted definition splits at ':' into exactly its three fields. */
  lemma FormattedFields(d: StreamDef)
    requires PlainSymbol(d.symbol)
    ensures Split(FormatStreamDef(d), ':') == [d.symbol, DataTypeName(d.dataType), NatToString(d.maxLevels)]
  {
    var name := DataTypeName(d.dataType);
    var digits := NatToString(d.maxLevels);
    NatToStringDigits(d.maxLevels);
    JoinThree(d.symbol, name, digits, ':');
    assert ':' !in digits by {
      forall k | 0 <= k < |digits| ensures digits[k] != ':' { assert IsDigit(digits[k]); }
    }
    SplitOfJoin([d.symbol, name, digits], ':');
  }

  lemma NoCommaInFormatted(d: StreamDef)
    requires PlainSymbol(d.symbol)
    ensures ',' !in FormatStreamDef(d)
  {
    var digits := NatToString(d.maxLevels);
    NatToStringDigits(d.maxLevels);
    forall k | 0 <= k < |digits| ensures digits[k] != ',' { assert IsDigit(digits[k]); }
    var f := FormatStreamDef(d);
    assert f == d.symbol + (":" + DataTypeName(d.dataType) + ":" + digits);
  }

  /** A `streams` value written from a non-empty list of definitions parses back to exactly
      that list, in order. */
  lemma ParseOfFormattedStreams(q: StreamQuery, defs: seq<StreamDef>)
    requires |defs| >= 1
    requires forall i :: 0 <= i < |defs| ==> PlainSymbol(defs[i].symbol)
    requires q.streams == Some(Join(seq(|defs|, i requires 0 <= i < |defs| => FormatStreamDef(defs[i])), ','))
    ensures StreamsOf(q) == defs
  {
    var texts := seq(|defs|, i requires 0 <= i < |defs| => FormatStreamDef(defs[i]));
    forall i | 0 <= i < |texts| ensures ',' !in texts[i] { NoCommaInFormatted(defs[i]); }
    SplitOfJoin(texts, ',');
    forall i | 0 <= i < |defs| ensures ParseStreamDef(q, texts[i]) == defs[i] {
      ParseOfFormattedDef(q, defs[i]);
    }
  }

  // ---------------------------------------------------------------------------------------
  // SSE framing

  /** Outbound messages; the market-data payload lives only in the opaque JSON body. */
  datatype SSEMessage =
    | MarketData(streamId: string, symbol: string, sequence: nat, timestamp: int)
    | HeartBeat(timestamp: int)
    | ConnectionInfo(clientId: string, serverTime: int, supportedSymbols: seq<string>)
    | Error(code: U32, message: string, errorStreamId: Option<string>)

  function EventName(m: SSEMessage): string {
    match m
    case MarketData(_, _, _, _) => "market_data"
    case HeartBeat(_) => "heartbeat"
    case ConnectionInfo(_, _, _) => "connection_info"
    case Error(_, _, _) => "error"
  }

  /** Body of the frame sent when serialization fails. */
  const FailedEventBody: string := "{\"message\":\"Serialization failed\"}"

  /** `to_sse_event`; `json` is the serializer's output, `None` when serialization failed. */
  function ToSseEvent(m: SSEMessage, json: Option<string>): string {
    match json
    case Some(j) => "event: " + EventName(m) + "\ndata: " + j + "\n\n"
    case None => "event: " + "error" + "\ndata: " + FailedEventBody + "\n\n"
  }

  /** `to_sse_data`: the same without the `event:` line. */
  function ToSseData(json: Option<string>): string {
    match json
    case Some(j) => "data: " + j + "\n\n"
    case None => "data: {\"event\":\"error\",\"message\":\"Serialization failed\"}\n\n"
  }

  datatype SseFrame = SseFrame(event: string, data: string)

  predicate StartsWith(s: string, prefix: string) {
    |prefix| <= |s| && s[..|prefix|] == prefix
  }

  /** Reads one named-event frame back: an `event:` line, a `data:` line and a blank line. */
  function ParseSseFrame(frame: string): Option<SseFrame> {
    var lines := Split(frame, '\n');
    if |lines| == 4 && lines[2] == "" && lines[3] == ""
       && StartsWith(lines[0], "event: ") && StartsWith(lines[1], "data: ")
    then Some(SseFrame(lines[0][7..], lines[1][6..]))
    else None
  }

  lemma EventNameHasNoNewline(m: SSEMessage)
    ensures '\n' !in EventName(m)
  {
  }

  /** A framed event reads back as its variant's event name and the unchanged JSON body
      (the serializer never emits a raw newline). */
  lemma ParseOfSseEvent(m: SSEMessage, json: string)
    requires '\n' !in json
    ensures ParseSseFrame(ToSseEvent(m, Some(json))) == Some(SseFrame(EventName(m), json))
  {
    var l0 := "event: " + EventName(m);
    var l1 := "data: " + json;
    FramedEventLines(m, json);
    assert StartsWith(l0, "event: ") && l0[7..] == EventName(m);
    assert StartsWith(l1, "data: ") && l1[6..] == json;
  }

  /** A framed event is its two lines followed by a blank line. */
  lemma FramedEventLines(m: SSEMessage, json: string)
    requires '\n' !in json
    ensures Split(ToSseEvent(m, Some(json)), '\n') == ["event: " + EventName(m), "data: " + json, "", ""]
  {
    var l0 := "event: " + EventName(m);
    var l1 := "data: " + json;
    assert '\n' !in l0 by { EventNameHasNoNewline(m); }
    EventFrameText(m, json);
    TwoLinesAndBlank(l0, l1);
  }

  /** The event frame is the `event:` line and the `data:` line, each ended by a newline,
      then an empty line. */
  lemma EventFrameText(m: SSEMessage, json: string)
    ensures ToSseEvent(m, Some(json)) == ("event: " + EventName(m)) + "\n" + ("data: " + json) + "\n\n"
  {
  }

  /** Two lines without a newline, each ended by one, and an empty line after them. */
  lemma TwoLinesAndBlank(a: string, b: string)
    requires '\n' !in a && '\n' !in b
    ensures Split(a + "\n" + b + "\n\n", '\n') == [a, b, "", ""]
  {
    JoinFour(a, b, "", "", '\n');
    assert Join([a, b, "", ""], '\n') == a + "\n" + b + "\n\n";
    SplitOfJoin([a, b, "", ""], '\n');
  }

  /** The fallback frame still reads as an `error` event. */
  lemma ParseOfFailedSseEvent(m: SSEMessage)
    ensures ParseSseFrame(ToSseEvent(m, None)).Some?
    ensures ParseSseFrame(ToSseEvent(m, None)).value.event == "error"
  {
    var body := FailedEventBody;
    var e := Error(0, "", None);
    assert ToSseEvent(m, None) == ToSseEvent(e, Some(body));
    assert '\n' !in body by {
      forall k | 0 <= k < |body| ensures body[k] != '\n' { }
    }
    ParseOfSseEvent(e, body);
  }

  /** The four variants get four different event names. */
  lemma EventNamesDistinct(m1: SSEMessage, m2: SSEMessage)
    requires EventName(m1) == EventName(m2)
    ensures m1.MarketData? <==> m2.MarketData?
    ensures m1.HeartBeat? <==> m2.HeartBeat?
    ensures m1.ConnectionInfo? <==> m2.ConnectionInfo?
    ensures m1.Error? <==> m2.Error?
  {
  }

  /** The data-only frame is the event frame without its first line. */
  lemma SseDataIsEventTail(m: SSEMessage, json: string)
    ensures ToSseEvent(m, Some(json)) == "event: " + EventName(m) + "\n" + ToSseData(Some(json))
  {
  }
}
