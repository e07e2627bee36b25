/** The browser completion client (`src/services/chatService.ts`): the request body,
    the line-by-line reading of the streamed reply, the model-list normaliser and
    the usage extractor. The network is replaced by what it delivers. */
module ChatService {
  import opened Wrappers
  import opened Text
  import opened JsonValue
  import opened ChatTypes

  const ModelRequiredMessage: string := "model is required"
  const CancelledMessage: string := "Request was cancelled"
  const NetworkLostMessage: string := "Network connection lost during streaming"
  const NullBodyMessage: string := "Response body is null"
  const TimedOutMessage: string := "Request timed out"
  /** What reading a property of `null` throws. */
  const TypeErrorMessage: string := "Cannot read properties of null"
  const DataPrefix: string := "data: "
  const DoneSentinel: string := "[DONE]"

  function HttpErrorMessage(status: nat): string {
    "HTTP error! status: " + Decimal(status)
  }

  /** An exception raised by the transport: an abort (the caller's signal or the
      internal timeout) or any other `Error` with its message. */
  datatype JsError = AbortError | Error(message: string)

  /** The outcome of a plain request: the parsed body of a 2xx response, a non-2xx
      status, or a rejection (network failure, abort, unparsable body). */
  datatype Reply = Answered(body: Json) | HttpFailure(status: nat) | Rejected(error: JsError)

  /** How the read loop over a streamed body stops once the listed chunks are read:
      the reader reports `done`, a further chunk arrives after the signal was
      aborted, or a read rejects. */
  datatype Ending = Done | SignalAborted | ReadRejected(error: JsError)

  /** What the completion request meets on the network. */
  datatype Transport =
    | Refused(error: JsError)
    | StatusNotOk(status: nat)
    | NoBody
    | Streamed(chunks: seq<string>, ending: Ending)

  /** How the sequence of increments ends, as the caller of the generator sees it. */
  datatype StreamEnd = Completed | Failed(message: string)

  // ----- Request body -----

  function WireMessage(m: ChatMessage): (w: Json)
    ensures Prop(w, "role") == Some(JStr(RoleName(m.role)))
    ensures Prop(w, "content") == Some(JStr(m.text))
  {
    JObj(map["role" := JStr(RoleName(m.role)), "content" := JStr(m.text)])
  }

  /** The JSON body posted to `/v1/chat/completions`. */
  function RequestBody(history: seq<ChatMessage>, model: string, temperature: real, maxTokens: Option<real>): (body: Json)
    ensures Prop(body, "model") == Some(JStr(model))
    ensures Prop(body, "temperature") == Some(JNum(temperature))
    ensures Prop(body, "stream") == Some(JBool(true))
    ensures Prop(body, "max_tokens").Some? <==> maxTokens.Some? && maxTokens.value != 0.0
    ensures Prop(body, "max_tokens").Some? ==> Prop(body, "max_tokens") == Some(JNum(maxTokens.value))
    ensures Prop(body, "messages").Some? && Prop(body, "messages").value.JArr?
    ensures |Prop(body, "messages").value.items| == |history|
    ensures forall i :: 0 <= i < |history| ==> Prop(body, "messages").value.items[i] == WireMessage(history[i])
  {
    var base := map[
      "model" := JStr(model),
      "messages" := JArr(seq(|history|, i requires 0 <= i < |history| => WireMessage(history[i]))),
      "temperature" := JNum(temperature),
      "stream" := JBool(true)];
    if maxTokens.Some? && maxTokens.value != 0.0 then JObj(base["max_tokens" := JNum(maxTokens.value)])
    else JObj(base)
  }

  // ----- Reading the stream -----

  /** What one line of a chunk does to the stream. */
  datatype LineAction = Skip | Finish | Yield(content: string)

  /** The first element of `choices`, when the payload is an object holding a
      non-empty array there. */
  function FirstChoice(data: Json): Option<Json> {
    match Prop(data, "choices")
    case Some(JArr(choices)) => if |choices| > 0 then Some(choices[0]) else None
    case _ => None
  }

  /** What a parsed payload does. A `null` payload or a `null` first choice throws
      when read, which the per-line handler swallows. */
  function PayloadAction(data: Json): (r: LineAction)
    ensures r.Yield? ==> r.content != ""
  {
    if data.JNull? then Skip
    else match FirstChoice(data)
      case None => Skip
      case Some(first) =>
        if first.JNull? then Skip
        else if Present(Prop(first, "finish_reason")) then Finish
        else match Prop(first, "delta")
          case Some(delta) =>
            if Truthy(delta) then
              match Prop(delta, "content")
              case Some(JStr(c)) => if c != "" then Yield(c) else Skip
              case _ => Skip
            else Skip
          case None => Skip
  }

  /** What one line does: only `data: ` lines count; their payload is trimmed;
      `[DONE]` ends the stream; an empty or unparsable payload is skipped. `parse`
      stands for `JSON.parse` (None: it throws). */
  function LineActionOf(line: string, parse: string -> Option<Json>): (r: LineAction)
    ensures r.Yield? ==> r.content != ""
  {
    if !StartsWith(line, DataPrefix) then Skip
    else
      var payload := TrimJs(line[6..]);
      if payload == DoneSentinel then Finish
      else if payload == "" then Skip
      else match parse(payload)
        case None => Skip
        case Some(data) => PayloadAction(data)
  }

  /** A payload ends the stream exactly when its first choice carries a truthy
      `finish_reason`; it yields only the non-empty string `delta.content`. */
  lemma PayloadActionSpec(data: Json)
    ensures PayloadAction(data) == Finish <==>
      !data.JNull? && FirstChoice(data).Some? && !FirstChoice(data).value.JNull?
      && Present(Prop(FirstChoice(data).value, "finish_reason"))
    ensures PayloadAction(data).Yield? ==>
      !data.JNull? && FirstChoice(data).Some? && Prop(FirstChoice(data).value, "delta").Some?
      && Prop(Prop(FirstChoice(data).value, "delta").value, "content") == Some(JStr(PayloadAction(data).content))
  {
  }

  /** Only `data: ` lines count; `[DONE]` ends the stream; an empty or unparsable
      payload is skipped. */
  lemma LineActionSpec(line: string, parse: string -> Option<Json>)
    ensures !StartsWith(line, DataPrefix) ==> LineActionOf(line, parse) == Skip
    ensures StartsWith(line, DataPrefix) ==>
      var payload := TrimJs(line[6..]);
      (payload == DoneSentinel ==> LineActionOf(line, parse) == Finish)
      && (payload == "" ==> LineActionOf(line, parse) == Skip)
      && (payload != DoneSentinel && parse(payload).None? ==> LineActionOf(line, parse) == Skip)
      && (payload != DoneSentinel && payload != "" && parse(payload).Some? ==>
            LineActionOf(line, parse) == PayloadAction(parse(payload).value))
  {
  }

  /** The state of the generator after some lines: what it has yielded, and
      whether it has returned. */
  datatype Scan = Scan(yielded: seq<string>, finished: bool)

  /** Taking line actions in order: a `Finish` returns, and nothing after it is
      looked at. */
  function Run(acts: seq<LineAction>): (r: Scan)
    ensures forall c :: c in r.yielded ==> Yield(c) in acts
  {
    if acts == [] then Scan([], false)
    else
      var before := Run(acts[..|acts| - 1]);
      if before.finished then before
      else match acts[|acts| - 1]
        case Skip => before
        case Finish => Scan(before.yielded, true)
        case Yield(c) => Scan(before.yielded + [c], false)
  }

  /** The contents of the yielding actions, in order: the reference `Run` is proved
      against. */
  function Contents(acts: seq<LineAction>): seq<string> {
    if acts == [] then []
    else Contents(acts[..|acts| - 1]) + (if acts[|acts| - 1].Yield? then [acts[|acts| - 1].content] else [])
  }

  function Actions(lines: seq<string>, parse: string -> Option<Json>): (acts: seq<LineAction>)
    ensures |acts| == |lines|
    ensures forall i :: 0 <= i < |lines| ==> acts[i] == LineActionOf(lines[i], parse)
  {
    seq(|lines|, i requires 0 <= i < |lines| => LineActionOf(lines[i], parse))
  }

  /** The generator over the lines of one chunk. */
  function ScanLines(lines: seq<string>, parse: string -> Option<Json>): (r: Scan)
    ensures forall c :: c in r.yielded ==> c != ""
  {
    var acts := Actions(lines, parse);
    assert forall c :: Yield(c) in acts ==> c != "";
    Run(acts)
  }

  /** Each chunk is split on `\n` on its own: nothing is carried from one chunk to
      the next. */
  function ScanChunks(chunks: seq<string>, parse: string -> Option<Json>): (r: Scan)
    ensures forall c :: c in r.yielded ==> c != ""
  {
    if chunks == [] then Scan([], false)
    else
      var before := ScanChunks(chunks[..|chunks| - 1], parse);
      if before.finished then before
      else
        var here := ScanLines(Split(chunks[|chunks| - 1], '\n'), parse);
        Scan(before.yielded + here.yielded, here.finished)
  }

  /** The lines the reader sees, chunk by chunk. */
  function ChunkLines(chunks: seq<string>): seq<string> {
    if chunks == [] then [] else ChunkLines(chunks[..|chunks| - 1]) + Split(chunks[|chunks| - 1], '\n')
  }

  /** Surfacing an exception through the generator's outer handler. */
  function Surface(e: JsError): (m: string)
    ensures e.AbortError? ==> m == CancelledMessage
    ensures e.Error? && Contains(e.message, "NetworkError") ==> m == NetworkLostMessage
    ensures e.Error? && !Contains(e.message, "NetworkError") ==> m == e.message
  {
    match e
    case AbortError => CancelledMessage
    case Error(msg) => if Contains(msg, "NetworkError") then NetworkLostMessage else msg
  }

  function EndingOf(ending: Ending): StreamEnd {
    match ending
    case Done => Completed
    case SignalAborted => Failed(CancelledMessage)
    case ReadRejected(e) => Failed(Surface(e))
  }

  /** Everything one call of the generator does: the body it sends (None when it
      throws before sending), the increments it yields, and how it ends. */
  datatype Exchange = Exchange(sent: Option<Json>, increments: seq<string>, end: StreamEnd)

  function Stream(history: seq<ChatMessage>, model: string, temperature: real, maxTokens: Option<real>,
                  transport: Transport, parse: string -> Option<Json>): Exchange
  {
    if model == "" then Exchange(None, [], Failed(ModelRequiredMessage))
    else
      var body := Some(RequestBody(history, model, temperature, maxTokens));
      match transport
      case Refused(e) => Exchange(body, [], Failed(Surface(e)))
      case StatusNotOk(status) => Exchange(body, [], Failed(HttpErrorMessage(status)))
      case NoBody => Exchange(body, [], Failed(NullBodyMessage))
      case Streamed(chunks, ending) =>
        var scan := ScanChunks(chunks, parse);
        Exchange(body, scan.yielded, if scan.finished then Completed else EndingOf(ending))
  }

  /** `getResponseStreaming`: the read loop over chunks; a return from the line
      loop ends the generator. */
  method GetResponseStreaming(history: seq<ChatMessage>, model: string, temperature: real, maxTokens: Option<real>,
                              transport: Transport, parse: string -> Option<Json>)
    returns (sent: Option<Json>, increments: seq<string>, end: StreamEnd)
    ensures Exchange(sent, increments, end) == Stream(history, model, temperature, maxTokens, transport, parse)
  {
    increments := [];
    if model == "" {
      sent := None;
      end := Failed(ModelRequiredMessage);
      return;
    }
    sent := Some(RequestBody(history, model, temperature, maxTokens));
    match transport {
      case Refused(e) =>
        end := Failed(Surface(e));
      case StatusNotOk(status) =>
        end := Failed(HttpErrorMessage(status));
      case NoBody =>
        end := Failed(NullBodyMessage);
      case Streamed(chunks, ending) =>
        var k := 0;
        while k < |chunks|
          invariant 0 <= k <= |chunks|
          invariant ScanChunks(chunks[..k], parse) == Scan(increments, false)
        {
          var more, finished := ReadLines(Split(chunks[k], '\n'), parse);
          assert chunks[..k + 1][..k] == chunks[..k];
          increments := increments + more;
          if finished {
            ScanChunksFinishedPrefix(chunks, k + 1, parse);
            end := Completed;
            return;
          }
          k := k + 1;
        }
        assert chunks[..k] == chunks;
        end := EndingOf(ending);
    }
  }

  /** The `for` loop over the lines of one chunk. */
  method ReadLines(lines: seq<string>, parse: string -> Option<Json>) returns (yielded: seq<string>, finished: bool)
    ensures Scan(yielded, finished) == ScanLines(lines, parse)
  {
    ghost var acts := Actions(lines, parse);
    yielded := [];
    var j := 0;
    while j < |lines|
      invariant 0 <= j <= |lines|
      invariant Run(acts[..j]) == Scan(yielded, false)
    {
      assert acts[..j + 1][..j] == acts[..j];
      var action := LineActionOf(lines[j], parse);
      if action == Finish {
        RunFinishedPrefix(acts, j + 1);
        finished := true;
        return;
      }
      if action.Yield? {
        yielded := yielded + [action.content];
      }
      j := j + 1;
    }
    assert acts[..j] == acts;
    finished := false;
  }

  // ----- Properties of the stream reading -----

  lemma {:induction false} RunFinishedPrefix(acts: seq<LineAction>, n: nat)
    requires n <= |acts| && Run(acts[..n]).finished
    ensures Run(acts) == Run(acts[..n])
    decreases |acts|
  {
    if n < |acts| {
      var init := acts[..|acts| - 1];
      assert init[..n] == acts[..n];
      RunFinishedPrefix(init, n);
    } else {
      assert acts[..n] == acts;
    }
  }

  lemma {:induction false} ScanChunksFinishedPrefix(chunks: seq<string>, n: nat, parse: string -> Option<Json>)
    requires n <= |chunks| && ScanChunks(chunks[..n], parse).finished
    ensures ScanChunks(chunks, parse) == ScanChunks(chunks[..n], parse)
    decreases |chunks|
  {
    if n < |chunks| {
      var init := chunks[..|chunks| - 1];
      assert init[..n] == chunks[..n];
      ScanChunksFinishedPrefix(init, n, parse);
    } else {
      assert chunks[..n] == chunks;
    }
  }

  /** The generator yields the contents of the lines before the first terminating
      line, in order, and has returned exactly when there is such a line. */
  lemma {:induction false} RunSpec(acts: seq<LineAction>)
    ensures Finish !in acts ==> Run(acts) == Scan(Contents(acts), false)
    ensures Finish in acts ==> Run(acts) == Scan(Contents(acts[..FirstIndex(acts, Finish)]), true)
  {
    if acts != [] {
      var init := acts[..|acts| - 1];
      var last := acts[|acts| - 1];
      assert acts == init + [last];
      RunSpec(init);
      if Finish in init {
        FirstIndexPrefix(init, last, Finish);
        var k := FirstIndex(init, Finish);
        assert acts[..k] == init[..k];
      } else if last == Finish {
        FirstIndexLast(init, Finish);
        assert acts[..|init|] == init;
      }
    }
  }

  /** Taking `a` then `b`: once `a` has returned, `b` is never looked at. */
  lemma {:induction false} RunAppend(a: seq<LineAction>, b: seq<LineAction>)
    ensures Run(a + b) ==
      if Run(a).finished then Run(a)
      else Scan(Run(a).yielded + Run(b).yielded, Run(b).finished)
    decreases |b|
  {
    if b == [] {
      assert a + b == a;
    } else {
      var init := b[..|b| - 1];
      assert (a + b)[..|a + b| - 1] == a + init;
      RunAppend(a, init);
      if Run(a).finished {
        assert (a + b)[..|a|] == a;
        RunFinishedPrefix(a + b, |a|);
      }
    }
  }

  lemma ActionsAppend(a: seq<string>, b: seq<string>, parse: string -> Option<Json>)
    ensures Actions(a + b, parse) == Actions(a, parse) + Actions(b, parse)
  {
    var left, right, whole := Actions(a, parse), Actions(b, parse), Actions(a + b, parse);
    forall i | 0 <= i < |a + b|
      ensures whole[i] == (left + right)[i]
    {
      if i < |a| {
        assert (a + b)[i] == a[i];
      } else {
        assert (a + b)[i] == b[i - |a|];
      }
    }
  }

  /** Reading chunk by chunk is reading the concatenation of their line lists. */
  lemma {:induction false} ScanChunksIsScanOfLines(chunks: seq<string>, parse: string -> Option<Json>)
    ensures ScanChunks(chunks, parse) == ScanLines(ChunkLines(chunks), parse)
  {
    if chunks != [] {
      var init := chunks[..|chunks| - 1];
      var last := Split(chunks[|chunks| - 1], '\n');
      ScanChunksIsScanOfLines(init, parse);
      ActionsAppend(ChunkLines(init), last, parse);
      RunAppend(Actions(ChunkLines(init), parse), Actions(last, parse));
    }
  }

  /** A line with a `finish_reason` ends the stream even when it also carries
      content: that content is not yielded. */
  lemma FinishReasonWinsOverContent(line: string, parse: string -> Option<Json>, reason: string, content: string)
    requires StartsWith(line, DataPrefix) && TrimJs(line[6..]) != DoneSentinel && TrimJs(line[6..]) != ""
    requires reason != ""
    requires parse(TrimJs(line[6..])) == Some(JObj(map["choices" := JArr([JObj(map[
               "finish_reason" := JStr(reason),
               "delta" := JObj(map["content" := JStr(content)])])])]))
    ensures LineActionOf(line, parse) == Finish
    ensures ScanLines([line], parse) == Scan([], true)
  {
    assert Actions([line], parse) == [Finish];
    assert [Finish][..0] == [];
  }

  /** The failure the caller sees when the request is aborted, at any point, is the
      cancellation message. */
  lemma AbortSurfacesAsCancellation(history: seq<ChatMessage>, model: string, temperature: real, maxTokens: Option<real>,
                                    transport: Transport, parse: string -> Option<Json>)
    requires model != ""
    requires transport == Refused(AbortError)
          || (transport.Streamed? && (transport.ending == SignalAborted || transport.ending == ReadRejected(AbortError))
              && !ScanChunks(transport.chunks, parse).finished)
    ensures Stream(history, model, temperature, maxTokens, transport, parse).end == Failed(CancelledMessage)
    ensures Contains(CancelledMessage, "cancelled")
  {
    ContainsInfix("Request was ", "cancelled", "");
    assert "Request was " + "cancelled" + "" == CancelledMessage;
  }

  /** `{"choices":[{"delta":{"content":c}}]}`. */
  function DeltaPayload(c: string): Json {
    JObj(map["choices" := JArr([JObj(map["delta" := JObj(map["content" := JStr(c)])])])])
  }

  /** `{"choices":[{"finish_reason":reason}]}`. */
  function StopPayload(reason: string): Json {
    JObj(map["choices" := JArr([JObj(map["finish_reason" := JStr(reason)])])])
  }

  /** A data line cut by a chunk boundary is lost: read whole it yields its
      content, but cut in two, each half is a line of its own; the first half does
      not parse and the second is not a data line. */
  lemma ChunkBoundaryLosesLine(first: string, second: string, c: string, parse: string -> Option<Json>)
    requires '\n' !in first && '\n' !in second
    requires StartsWith(first, DataPrefix) && !StartsWith(second, DataPrefix)
    requires TrimJs(first[6..]) != DoneSentinel && parse(TrimJs(first[6..])) == None
    requires TrimJs((first + second)[6..]) != "" && TrimJs((first + second)[6..]) != DoneSentinel
    requires parse(TrimJs((first + second)[6..])) == Some(DeltaPayload(c)) && c != ""
    ensures ScanChunks([first + second], parse).yielded == [c]
    ensures ScanChunks([first, second], parse).yielded == []
  {
    assert (first + second)[..6] == first[..6];
    assert '\n' !in first + second;
    WholeLineYields(first + second, c, parse);
    CutLineYieldsNothing(first, second, parse);
  }

  lemma CutLineYieldsNothing(first: string, second: string, parse: string -> Option<Json>)
    requires '\n' !in first && '\n' !in second
    requires StartsWith(first, DataPrefix) && !StartsWith(second, DataPrefix)
    requires TrimJs(first[6..]) != DoneSentinel && parse(TrimJs(first[6..])) == None
    ensures ScanChunks([first, second], parse).yielded == []
  {
    UnparsableLineSkips(first, parse);
    NonDataLineSkips(second, parse);
    TwoSkippedChunks(first, second, parse);
  }

  lemma UnparsableLineSkips(line: string, parse: string -> Option<Json>)
    requires StartsWith(line, DataPrefix)
    requires TrimJs(line[6..]) != DoneSentinel && parse(TrimJs(line[6..])) == None
    ensures LineActionOf(line, parse) == Skip
  {
  }

  lemma NonDataLineSkips(line: string, parse: string -> Option<Json>)
    requires !StartsWith(line, DataPrefix)
    ensures LineActionOf(line, parse) == Skip
  {
  }

  lemma WholeLineYields(whole: string, c: string, parse: string -> Option<Json>)
    requires '\n' !in whole && StartsWith(whole, DataPrefix)
    requires TrimJs(whole[6..]) != "" && TrimJs(whole[6..]) != DoneSentinel
    requires parse(TrimJs(whole[6..])) == Some(DeltaPayload(c)) && c != ""
    ensures ScanChunks([whole], parse).yielded == [c]
  {
    OneLineChunk(whole, parse);
    assert LineActionOf(whole, parse) == Yield(c);
    assert [Yield(c)][..0] == [];
  }

  /** A chunk without a newline is one line. */
  lemma OneLineChunk(c: string, parse: string -> Option<Json>)
    requires '\n' !in c
    ensures ScanChunks([c], parse) == Run([LineActionOf(c, parse)])
  {
    SplitOfLineFree(c);
    assert [c][..0] == [];
    assert Actions([c], parse) == [LineActionOf(c, parse)];
  }

  lemma TwoSkippedChunks(a: string, b: string, parse: string -> Option<Json>)
    requires '\n' !in a && '\n' !in b
    requires LineActionOf(a, parse) == Skip && LineActionOf(b, parse) == Skip
    ensures ScanChunks([a, b], parse) == Scan([], false)
  {
    OneLineChunk(a, parse);
    SplitOfLineFree(b);
    assert [Skip][..0] == [];
    assert [a, b][..1] == [a];
    assert Actions([b], parse) == [Skip];
  }

  /** The line `data: {"choices":[{"delta":{"content":"Hi"}}]}`, cut after
      `"delta"`, meets the conditions of `ChunkBoundaryLosesLine`. */
  lemma HiLineCutMeetsConditions()
    ensures '\n' !in HiFirstHalf && '\n' !in HiSecondHalf
    ensures StartsWith(HiFirstHalf, DataPrefix) && !StartsWith(HiSecondHalf, DataPrefix)
    ensures TrimJs(HiFirstHalf[6..]) == HiFirstHalf[6..] != DoneSentinel
    ensures TrimJs((HiFirstHalf + HiSecondHalf)[6..]) == HiFirstHalf[6..] + HiSecondHalf
  {
    HiHalvesAreLines();
    HiFirstHalfTrimmed();
    HiWholeTrimmed();
  }

  lemma HiHalvesAreLines()
    ensures '\n' !in HiFirstHalf && '\n' !in HiSecondHalf
    ensures StartsWith(HiFirstHalf, DataPrefix) && !StartsWith(HiSecondHalf, DataPrefix)
  {
    assert HiSecondHalf[..6][0] != DataPrefix[0];
  }

  lemma HiFirstHalfTrimmed()
    ensures TrimJs(HiFirstHalf[6..]) == HiFirstHalf[6..] != DoneSentinel
  {
    TrimOfUntrimmable(HiFirstHalf[6..]);
  }

  lemma HiWholeTrimmed()
    ensures TrimJs((HiFirstHalf + HiSecondHalf)[6..]) == HiFirstHalf[6..] + HiSecondHalf
  {
    var payload := HiFirstHalf[6..] + HiSecondHalf;
    assert (HiFirstHalf + HiSecondHalf)[6..] == payload;
    assert payload[0] == '{' && payload[|payload| - 1] == '}';
    TrimOfUntrimmable(payload);
  }

  const HiFirstHalf: string := "data: {\"choices\":[{\"delta\""
  const HiSecondHalf: string := ":{\"content\":\"Hi\"}}]}"

  /** Three lines from the service: a content delta, a finish reason and `[DONE]`,
      yield exactly `"A"` and end the stream. */
  lemma ThreeLineExample(parse: string -> Option<Json>, l1: string, l2: string, l3: string)
    requires StartsWith(l1, DataPrefix) && StartsWith(l2, DataPrefix) && StartsWith(l3, DataPrefix)
    requires TrimJs(l1[6..]) != "" && TrimJs(l1[6..]) != DoneSentinel
    requires TrimJs(l2[6..]) != "" && TrimJs(l2[6..]) != DoneSentinel
    requires TrimJs(l3[6..]) == DoneSentinel
    requires parse(TrimJs(l1[6..])) == Some(DeltaPayload("A"))
    requires parse(TrimJs(l2[6..])) == Some(StopPayload("stop"))
    ensures ScanLines([l1, l2, l3], parse) == Scan(["A"], true)
  {
    ContentLineYields(l1, parse);
    StopLineFinishes(l2, parse);
    DoneLineFinishes(l3, parse);
    ThreeActionsRun(parse, l1, l2, l3);
  }

  lemma ThreeActionsRun(parse: string -> Option<Json>, l1: string, l2: string, l3: string)
    requires LineActionOf(l1, parse) == Yield("A") && LineActionOf(l2, parse) == Finish
    requires LineActionOf(l3, parse) == Finish
    ensures ScanLines([l1, l2, l3], parse) == Scan(["A"], true)
  {
    ActionsOfThree(parse, l1, l2, l3);
    RunYieldFinishFinish();
  }

  lemma ActionsOfThree(parse: string -> Option<Json>, l1: string, l2: string, l3: string)
    ensures Actions([l1, l2, l3], parse) == [LineActionOf(l1, parse), LineActionOf(l2, parse), LineActionOf(l3, parse)]
  {
  }

  lemma RunYieldFinishFinish()
    ensures Run([Yield("A"), Finish, Finish]) == Scan(["A"], true)
  {
    var acts := [Yield("A"), Finish, Finish];
    assert acts[..2] == [Yield("A"), Finish];
    assert acts[..2][..1] == [Yield("A")];
    assert acts[..2][..1][..0] == [];
    assert Run([Yield("A")]) == Scan(["A"], false);
    assert Run([Yield("A"), Finish]) == Scan(["A"], true);
  }

  lemma DoneLineFinishes(line: string, parse: string -> Option<Json>)
    requires StartsWith(line, DataPrefix) && TrimJs(line[6..]) == DoneSentinel
    ensures LineActionOf(line, parse) == Finish
  {
  }

  lemma ContentLineYields(line: string, parse: string -> Option<Json>)
    requires StartsWith(line, DataPrefix)
    requires TrimJs(line[6..]) != "" && TrimJs(line[6..]) != DoneSentinel
    requires parse(TrimJs(line[6..])) == Some(DeltaPayload("A"))
    ensures LineActionOf(line, parse) == Yield("A")
  {
  }

  lemma StopLineFinishes(line: string, parse: string -> Option<Json>)
    requires StartsWith(line, DataPrefix)
    requires TrimJs(line[6..]) != "" && TrimJs(line[6..]) != DoneSentinel
    requires parse(TrimJs(line[6..])) == Some(StopPayload("stop"))
    ensures LineActionOf(line, parse) == Finish
  {
  }

  /** The line `data: [DONE]` meets the third condition of `ThreeLineExample`. */
  lemma DoneLineText()
    ensures StartsWith(DataPrefix + DoneSentinel, DataPrefix)
    ensures TrimJs((DataPrefix + DoneSentinel)[6..]) == DoneSentinel
  {
    assert (DataPrefix + DoneSentinel)[..6] == DataPrefix;
    assert (DataPrefix + DoneSentinel)[6..] == DoneSentinel;
    TrimOfUntrimmable(DoneSentinel);
  }

  lemma SplitOfLineFree(s: string)
    requires '\n' !in s
    ensures Split(s, '\n') == [s]
  {
    JoinSplit([s], '\n');
  }

  lemma TrimOfUntrimmable(s: string)
    requires |s| > 0 && !IsJsWhitespace(s[0]) && !IsJsWhitespace(s[|s| - 1])
    ensures TrimJs(s) == s
  {
  }

  // ----- Model list -----

  /** `filter(x => x && typeof x === 'string')`. */
  function NonEmptyStrings(xs: seq<Option<Json>>): (r: seq<string>)
    ensures forall s :: s in r <==> s != "" && Some(JStr(s)) in xs
  {
    if xs == [] then []
    else
      var init := NonEmptyStrings(xs[..|xs| - 1]);
      assert xs == xs[..|xs| - 1] + [xs[|xs| - 1]];
      match xs[|xs| - 1]
      case Some(JStr(s)) => if s != "" then init + [s] else init
      case _ => init
  }

  /** The filter's last step: the last element is kept when it is a non-empty string. */
  lemma NonEmptyStringsLast(xs: seq<Option<Json>>)
    requires xs != []
    ensures var last := xs[|xs| - 1];
      NonEmptyStrings(xs) == NonEmptyStrings(xs[..|xs| - 1])
                             + (if last.Some? && last.value.JStr? && last.value.s != "" then [last.value.s] else [])
  {
  }

  /** The filter keeps each non-empty string as often as it occurs: it does not
      deduplicate. */
  lemma {:induction false} NonEmptyStringsCount(xs: seq<Option<Json>>, s: string)
    requires s != ""
    ensures multiset(NonEmptyStrings(xs))[s] == multiset(xs)[Some(JStr(s))]
    decreases |xs|
  {
    if xs != [] {
      var init := xs[..|xs| - 1];
      var last := xs[|xs| - 1];
      NonEmptyStringsCount(init, s);
      var kept: seq<string> := if last.Some? && last.value.JStr? && last.value.s != "" then [last.value.s] else [];
      NonEmptyStringsLast(xs);
      var front := NonEmptyStrings(init);
      assert multiset(front + kept)[s] == multiset(front)[s] + multiset(kept)[s];
      assert xs == init + [last];
      assert multiset(xs)[Some(JStr(s))] == multiset(init)[Some(JStr(s))] + multiset([last])[Some(JStr(s))];
      assert multiset(kept)[s] == multiset([last])[Some(JStr(s))];
    }
  }

  /** The filter keeps the order of its input: filtering a concatenation is
      concatenating the filtered parts. */
  lemma {:induction false} NonEmptyStringsAppend(a: seq<Option<Json>>, b: seq<Option<Json>>)
    ensures NonEmptyStrings(a + b) == NonEmptyStrings(a) + NonEmptyStrings(b)
    decreases |b|
  {
    if b != [] {
      var init := b[..|b| - 1];
      NonEmptyStringsAppend(a, init);
      assert (a + b)[..|a + b| - 1] == a + init;
      assert b == init + [b[|b| - 1]];
    } else {
      assert a + b == a;
    }
  }

  /** Each element of a JSON array, as a value that is never `undefined`. */
  function Defined(xs: seq<Json>): (ys: seq<Option<Json>>)
    ensures |ys| == |xs| && forall i :: 0 <= i < |xs| ==> ys[i] == Some(xs[i])
  {
    seq(|xs|, i requires 0 <= i < |xs| => Some(xs[i]))
  }

  lemma {:induction false} DefinedCount(xs: seq<Json>, v: Json)
    ensures multiset(Defined(xs))[Some(v)] == multiset(xs)[v]
    decreases |xs|
  {
    if xs != [] {
      var init := xs[..|xs| - 1];
      DefinedCount(init, v);
      assert xs == init + [xs[|xs| - 1]];
      assert Defined(xs) == Defined(init) + [Some(xs[|xs| - 1])];
    }
  }

  /** `item.id` of every non-null item. */
  function IdsOf(items: seq<Json>): (ids: seq<Option<Json>>)
    ensures |ids| == |items|
    ensures forall i :: 0 <= i < |items| ==> ids[i] == Prop(items[i], "id")
  {
    seq(|items|, i requires 0 <= i < |items| => Prop(items[i], "id"))
  }

  /** The fallback list: the non-empty strings of `models`, duplicates kept. */
  function FallbackModels(data: Json): seq<string> {
    match Prop(data, "models")
    case Some(JArr(xs)) => NonEmptyStrings(Defined(xs))
    case _ => []
  }

  /** The non-empty string ids listed under `data`; None when an item is `null`,
      where reading `.id` throws. */
  function ListedIds(data: Json): Option<seq<string>> {
    match Prop(data, "data")
    case Some(JArr(items)) => if JNull in items then None else Some(NonEmptyStrings(IdsOf(items)))
    case _ => Some([])
  }

  function GetModels(reply: Reply): Result<seq<string>> {
    match reply
    case Rejected(AbortError) => Failure(TimedOutMessage)
    case Rejected(Error(msg)) => Failure(msg)
    case HttpFailure(status) => Failure(HttpErrorMessage(status))
    case Answered(data) =>
      if data.JNull? then Failure(TypeErrorMessage)
      else match ListedIds(data)
        case None => Failure(TypeErrorMessage)
        case Some(ids) => if |ids| > 0 then Success(Dedup(ids)) else Success(FallbackModels(data))
  }

  /** Every listed model is a non-empty name; names taken from `data` are distinct,
      in first-occurrence order, and are exactly the ids listed there. `models` is
      read only when `data` lists no id; then every non-empty string in it is
      listed as often as it occurs (in order, by `NonEmptyStringsAppend`), and
      without a `models` array the list is empty. */
  lemma GetModelsSpec(reply: Reply)
    ensures GetModels(reply).Success? ==> forall m :: m in GetModels(reply).value ==> m != ""
    ensures reply.Answered? && !reply.body.JNull? && ListedIds(reply.body).Some? && |ListedIds(reply.body).value| > 0 ==>
      var ids := ListedIds(reply.body).value;
      GetModels(reply).Success? && NoDuplicates(GetModels(reply).value)
      && (forall m :: m in GetModels(reply).value <==> m in ids)
      && (forall i, j :: 0 <= i < j < |GetModels(reply).value| ==>
            FirstIndex(ids, GetModels(reply).value[i]) < FirstIndex(ids, GetModels(reply).value[j]))
    ensures reply.Answered? && !reply.body.JNull? && ListedIds(reply.body) == Some([]) ==>
      GetModels(reply) == Success(FallbackModels(reply.body))
      && (match Prop(reply.body, "models")
          case Some(JArr(xs)) =>
            forall m :: m != "" ==> multiset(GetModels(reply).value)[m] == multiset(xs)[JStr(m)]
          case _ => GetModels(reply).value == [])
    ensures reply.Rejected? && reply.error.AbortError? ==> GetModels(reply) == Failure(TimedOutMessage)
  {
    if reply.Answered? && !reply.body.JNull? && ListedIds(reply.body).Some? {
      DedupSpec(ListedIds(reply.body).value);
      match Prop(reply.body, "models")
      case Some(JArr(xs)) =>
        forall m | m != "" ensures multiset(NonEmptyStrings(Defined(xs)))[m] == multiset(xs)[JStr(m)] {
          NonEmptyStringsCount(Defined(xs), m);
          DefinedCount(xs, JStr(m));
        }
      case _ =>
    }
  }

  /** `{"data":[{"id":"gpt-4o"},{"id":"gpt-4o"},{"id":"gpt-4.1"}]}` lists two models. */
  lemma DataIdsDeduplicated()
    ensures GetModels(Answered(JObj(map["data" := JArr([
              JObj(map["id" := JStr("gpt-4o")]),
              JObj(map["id" := JStr("gpt-4o")]),
              JObj(map["id" := JStr("gpt-4.1")])])])))
            == Success(["gpt-4o", "gpt-4.1"])
  {
    ThreeIdsListed();
    DedupOfThreeNames();
  }

  lemma ThreeIdsListed()
    ensures ListedIds(JObj(map["data" := JArr([
              JObj(map["id" := JStr("gpt-4o")]),
              JObj(map["id" := JStr("gpt-4o")]),
              JObj(map["id" := JStr("gpt-4.1")])])]))
            == Some(["gpt-4o", "gpt-4o", "gpt-4.1"])
  {
    var items := [JObj(map["id" := JStr("gpt-4o")]), JObj(map["id" := JStr("gpt-4o")]), JObj(map["id" := JStr("gpt-4.1")])];
    assert JNull !in items;
    var ids := IdsOf(items);
    assert ids == [Some(JStr("gpt-4o")), Some(JStr("gpt-4o")), Some(JStr("gpt-4.1"))];
    assert ids[..2] == [Some(JStr("gpt-4o")), Some(JStr("gpt-4o"))];
    assert ids[..2][..1] == [Some(JStr("gpt-4o"))];
    assert ids[..2][..1][..0] == [];
    assert NonEmptyStrings(ids[..2][..1]) == ["gpt-4o"];
    assert NonEmptyStrings(ids[..2]) == ["gpt-4o", "gpt-4o"];
    assert NonEmptyStrings(ids) == ["gpt-4o", "gpt-4o", "gpt-4.1"];
    var data := JObj(map["data" := JArr(items)]);
    assert Prop(data, "data") == Some(JArr(items));
  }

  lemma DedupOfThreeNames()
    ensures Dedup(["gpt-4o", "gpt-4o", "gpt-4.1"]) == ["gpt-4o", "gpt-4.1"]
  {
    var names := ["gpt-4o", "gpt-4o", "gpt-4.1"];
    assert names[..2] == ["gpt-4o", "gpt-4o"];
    assert names[..2][..1] == ["gpt-4o"];
    assert names[..2][..1][..0] == [];
    assert Dedup(names[..2][..1]) == ["gpt-4o"];
    assert Dedup(names[..2]) == ["gpt-4o"];
    assert "gpt-4.1" != "gpt-4o";
  }

  /** The `models` fallback is not deduplicated. */
  lemma FallbackKeepsDuplicates()
    ensures GetModels(Answered(JObj(map["models" := JArr([JStr("m"), JStr("m")])]))) == Success(["m", "m"])
  {
    var data := JObj(map["models" := JArr([JStr("m"), JStr("m")])]);
    assert ListedIds(data) == Some([]);
    var xs := [Some(JStr("m")), Some(JStr("m"))];
    assert seq(2, i requires 0 <= i < 2 => Some([JStr("m"), JStr("m")][i])) == xs;
    assert xs[..1] == [Some(JStr("m"))];
    assert xs[..1][..0] == [];
    assert NonEmptyStrings(xs[..1]) == ["m"];
    assert FallbackModels(data) == ["m", "m"];
  }

  // ----- Usage -----

  /** `data.quota_snapshots?.premium_interactions`. */
  function Premium(data: Json): Option<Json> {
    match Prop(data, "quota_snapshots")
    case Some(snapshots) => if snapshots.JNull? then None else Prop(snapshots, "premium_interactions")
    case None => None
  }

  function GetUsage(reply: Reply): (r: Option<UsageInfo>)
    ensures r.Some? <==> reply.Answered? && !reply.body.JNull?
    ensures r.Some? && !Present(Premium(reply.body)) ==> r.value == UsageInfo(None, None, None)
    ensures r.Some? && Present(Premium(reply.body)) ==>
      r.value.premiumRequestsLeft == NumberOf(Prop(Premium(reply.body).value, "remaining"))
      && r.value.totalPremiumRequests == NumberOf(Prop(Premium(reply.body).value, "entitlement"))
    ensures r.Some? ==> (r.value.premiumRequestsUsed.Some? <==>
                         r.value.premiumRequestsLeft.Some? && r.value.totalPremiumRequests.Some?)
    ensures r.Some? && r.value.premiumRequestsUsed.Some? ==>
      r.value.premiumRequestsUsed.value == r.value.totalPremiumRequests.value - r.value.premiumRequestsLeft.value
  {
    match reply
    case Answered(data) =>
      if data.JNull? then None
      else
        var premium := Premium(data);
        if Present(premium) then
          var left := NumberOf(Prop(premium.value, "remaining"));
          var total := NumberOf(Prop(premium.value, "entitlement"));
          var used := if left.Some? && total.Some? then Some(total.value - left.value) else None;
          Some(UsageInfo(left, total, used))
        else Some(UsageInfo(None, None, None))
    case _ => None
  }
}
