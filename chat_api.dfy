/** The `/api/chat` endpoint: it checks the request, sends the history and
    the prompt to the model backend, and relays the backend's streamed reply
    to the client as event-stream frames, ending with `[DONE]` or, on any
    failure, with one error frame. */
module ChatApi {
  import opened JsPrimitives
  import opened EventStream

  datatype ChatMessage = ChatMessage(role: string, content: string)

  /** The `prompt` field of the request body. */
  datatype Prompt = Missing | NotAString | Text(text: string)

  datatype Request = Request(httpMethod: string, prompt: Prompt, history: Option<seq<ChatMessage>>)

  /** One streamed chunk: `chunk.message`, when present, with its content
      (an absent content reads as the empty text). */
  datatype Chunk = Chunk(message: Option<string>)

  /** What the backend call gives: a rejected promise, a value that is not an
      async iterable, or a stream of chunks that either runs to its end or
      throws after the chunks it yielded. */
  datatype Backend = Rejected | NotIterable | Streaming(chunks: seq<Chunk>, completes: bool)

  /** The objects the endpoint serialises with `JSON.stringify`. */
  datatype Payload = ContentPayload(content: string) | ErrorPayload(error: string)

  const FailureMessage: string := "Failed to communicate with Ollama"

  /** The prompt passes `!prompt || typeof prompt !== "string"`: a missing
      prompt is falsy, any other type fails the type test, and the only falsy
      string is the empty one. */
  predicate IsValidPrompt(p: Prompt): (r: bool)
    ensures r <==> (p.Text? && |p.text| >= 1)
  {
    p.Text? && p.text != ""
  }

  /** The list sent to the model: the history, or nothing, then the prompt
      as one user message. */
  function ModelMessages(history: Option<seq<ChatMessage>>, prompt: string): (r: seq<ChatMessage>)
    ensures history == None ==> r == [ChatMessage("user", prompt)]
    ensures history != None ==> |r| == |history.value| + 1 && r[..|history.value|] == history.value
    ensures r[|r| - 1] == ChatMessage("user", prompt)
  {
    (if history.Some? then history.value else []) + [ChatMessage("user", prompt)]
  }

  /** How many chunks are read before one without a `message`: the logging
      line reads `chunk.message.content` and throws on such a chunk. */
  function ReadableCount(chunks: seq<Chunk>): (n: nat)
    ensures n <= |chunks|
    ensures forall k :: 0 <= k < n ==> chunks[k].message != None
    ensures n < |chunks| ==> chunks[n].message == None
  {
    if chunks == [] || chunks[0].message == None then 0 else 1 + ReadableCount(chunks[1..])
  }

  /** The non-empty contents of the chunks, in order: `chunk.message?.content`
      is truthy exactly for these. At most one per chunk is relayed. */
  function Contents(chunks: seq<Chunk>): (r: seq<string>)
    ensures |r| <= |chunks|
  {
    if chunks == [] then []
    else
      (if chunks[0].message != None && chunks[0].message.value != "" then [chunks[0].message.value] else [])
      + Contents(chunks[1..])
  }

  lemma {:induction false} ContentsAppendChunk(chunks: seq<Chunk>, c: Chunk)
    ensures Contents(chunks + [c])
         == Contents(chunks) + (if c.message != None && c.message.value != "" then [c.message.value] else [])
  {
    if chunks != [] {
      assert (chunks + [c])[1..] == chunks[1..] + [c];
      ContentsAppendChunk(chunks[1..], c);
    } else {
      assert Contents([c]) == (if c.message != None && c.message.value != "" then [c.message.value] else []) + Contents([]);
    }
  }

  /** Every relayed content is non-empty. */
  lemma {:induction false} ContentsNonEmpty(chunks: seq<Chunk>)
    ensures forall k :: 0 <= k < |Contents(chunks)| ==> Contents(chunks)[k] != ""
  {
    if chunks != [] {
      ContentsNonEmpty(chunks[1..]);
    }
  }

  /** The serialised content objects. */
  function Encoded(contents: seq<string>, encode: Payload -> string): (r: seq<string>)
    ensures |r| == |contents|
    ensures forall k :: 0 <= k < |r| ==> r[k] == encode(ContentPayload(contents[k]))
  {
    if contents == [] then [] else [encode(ContentPayload(contents[0]))] + Encoded(contents[1..], encode)
  }

  function ErrorData(encode: Payload -> string): string {
    encode(ErrorPayload(FailureMessage))
  }

  /** The data of every frame the endpoint writes for a valid request. */
  function StreamData(backend: Backend, encode: Payload -> string): (r: seq<string>)
    ensures !backend.Streaming? ==> r == [ErrorData(encode)]
    ensures backend.Streaming? ==>
      var contents := Contents(backend.chunks[..ReadableCount(backend.chunks)]);
      |r| == |contents| + 1
      && r[..|contents|] == Encoded(contents, encode)
      && r[|r| - 1] == (if backend.completes && ReadableCount(backend.chunks) == |backend.chunks|
                        then DoneSentinel else ErrorData(encode))
  {
    match backend
    case Rejected => [ErrorData(encode)]
    case NotIterable => [ErrorData(encode)]
    case Streaming(chunks, completes) =>
      var n := ReadableCount(chunks);
      Encoded(Contents(chunks[..n]), encode)
      + [if n == |chunks| && completes then DoneSentinel else ErrorData(encode)]
  }

  /** The stream closes with exactly one terminal frame: `[DONE]` when every
      chunk was read and the stream completed, the error frame otherwise; and
      `[DONE]` never appears earlier, as long as no serialised object is the
      sentinel itself. */
  lemma StreamEndsWithOneTerminal(backend: Backend, encode: Payload -> string)
    requires forall p :: encode(p) != DoneSentinel
    ensures var d := StreamData(backend, encode);
      |d| >= 1
      && (d[|d| - 1] == DoneSentinel <==>
           backend.Streaming? && backend.completes && ReadableCount(backend.chunks) == |backend.chunks|)
      && (d[|d| - 1] != DoneSentinel ==> d[|d| - 1] == ErrorData(encode))
      && forall k :: 0 <= k < |d| - 1 ==> d[k] != DoneSentinel
  {
    if backend.Streaming? {
      var n := ReadableCount(backend.chunks);
      var e := Encoded(Contents(backend.chunks[..n]), encode);
      assert forall k :: 0 <= k < |e| ==> e[k] != DoneSentinel;
    }
  }

  /** The data of a streamed reply, split into the content data and the one
      terminal datum. */
  lemma StreamingData(chunks: seq<Chunk>, completes: bool, encode: Payload -> string)
    ensures var n := ReadableCount(chunks);
      StreamData(Streaming(chunks, completes), encode)
      == Encoded(Contents(chunks[..n]), encode)
         + [if n < |chunks| || !completes then ErrorData(encode) else DoneSentinel]
  {
    var data := StreamData(Streaming(chunks, completes), encode);
    var m := |data| - 1;
    assert data == data[..m] + [data[m]];
  }

  /** A stream whose every chunk was read and that completed sends every
      content, then `[DONE]`. */
  lemma CompletedStreamData(chunks: seq<Chunk>, encode: Payload -> string)
    requires ReadableCount(chunks) == |chunks|
    ensures StreamData(Streaming(chunks, true), encode) == Encoded(Contents(chunks), encode) + [DoneSentinel]
  {
    StreamingData(chunks, true, encode);
    assert chunks[..|chunks|] == chunks;
  }

  /** The body of a completed stream reads back as its frames' data, as long
      as no serialised object holds a line feed. */
  lemma CompletedStreamEvents(chunks: seq<Chunk>, encode: Payload -> string)
    requires forall p :: HasNoNewline(encode(p))
    requires ReadableCount(chunks) == |chunks|
    ensures Events(Join(Framed(StreamData(Streaming(chunks, true), encode))))
         == Encoded(Contents(chunks), encode) + [DoneSentinel]
  {
    var data := Encoded(Contents(chunks), encode) + [DoneSentinel];
    CompletedStreamData(chunks, encode);
    DataHasNoNewline(Contents(chunks), encode);
    EventsOfFramed(data);
  }

  /** No frame datum of a completed stream holds a line feed, when no
      serialised object does. */
  lemma DataHasNoNewline(contents: seq<string>, encode: Payload -> string)
    requires forall p :: HasNoNewline(encode(p))
    ensures var data := Encoded(contents, encode) + [DoneSentinel];
      forall k :: 0 <= k < |data| ==> HasNoNewline(data[k])
  {
    var encoded := Encoded(contents, encode);
    var data := encoded + [DoneSentinel];
    assert HasNoNewline(DoneSentinel);
    forall k | 0 <= k < |data| ensures HasNoNewline(data[k]) {
      if k < |encoded| {
        assert data[k] == encode(ContentPayload(contents[k]));
      }
    }
  }

  /** A client that reads the body of a completed stream and decodes each
      frame with an inverse of the serialiser gets back every non-empty
      content, in order, followed by `[DONE]`. */
  lemma ReaderRecoversContents(chunks: seq<Chunk>, encode: Payload -> string, decode: string -> Payload)
    requires forall p :: decode(encode(p)) == p && HasNoNewline(encode(p))
    requires ReadableCount(chunks) == |chunks|
    ensures var events := Events(Join(Framed(StreamData(Streaming(chunks, true), encode))));
      |events| == |Contents(chunks)| + 1
      && events[|events| - 1] == DoneSentinel
      && forall k :: 0 <= k < |Contents(chunks)| ==> decode(events[k]) == ContentPayload(Contents(chunks)[k])
  {
    var contents := Contents(chunks);
    var encoded := Encoded(contents, encode);
    CompletedStreamEvents(chunks, encode);
    var events := encoded + [DoneSentinel];
    forall k | 0 <= k < |contents| ensures decode(events[k]) == ContentPayload(contents[k]) {
      assert events[k] == encode(ContentPayload(contents[k]));
    }
  }

  /** The response object, as far as the endpoint uses it. */
  class Response {
    var statusCode: int
    var headers: map<string, seq<string>>
    var jsonBody: Option<Payload>
    var written: seq<string>
    var ended: bool

    predicate Untouched()
      reads this
    {
      statusCode == 200 && headers == map[] && jsonBody == None && written == [] && !ended
    }

    constructor ()
      ensures Untouched()
    {
      statusCode, headers, jsonBody, written, ended := 200, map[], None, [], false;
    }

    method SetHeader(name: string, value: seq<string>)
      modifies this
      ensures headers == old(headers)[name := value]
      ensures statusCode == old(statusCode) && jsonBody == old(jsonBody)
      ensures written == old(written) && ended == old(ended)
    {
      headers := headers[name := value];
    }

    method Status(code: int)
      modifies this
      ensures statusCode == code
      ensures headers == old(headers) && jsonBody == old(jsonBody)
      ensures written == old(written) && ended == old(ended)
    {
      statusCode := code;
    }

    /** `json`: send one serialised object as the whole body and end. */
    method Json(body: Payload)
      requires !ended
      modifies this
      ensures jsonBody == Some(body) && ended
      ensures statusCode == old(statusCode) && headers == old(headers) && written == old(written)
    {
      jsonBody := Some(body);
      ended := true;
    }

    method Write(chunk: string)
      requires !ended
      modifies this
      ensures written == old(written) + [chunk]
      ensures statusCode == old(statusCode) && headers == old(headers)
      ensures jsonBody == old(jsonBody) && ended == old(ended)
    {
      written := written + [chunk];
    }

    method End()
      modifies this
      ensures ended
      ensures statusCode == old(statusCode) && headers == old(headers)
      ensures jsonBody == old(jsonBody) && written == old(written)
    {
      ended := true;
    }
  }

  const EventStreamHeaders: map<string, seq<string>> := map[
    "Content-Type" := ["text/event-stream"],
    "Cache-Control" := ["no-cache, no-transform"],
    "Connection" := ["keep-alive"]]

  /** Relaying one more content appends its frame. */
  lemma FramesAppendContent(contents: seq<string>, c: string, encode: Payload -> string)
    ensures Framed(Encoded(contents + [c], encode))
         == Framed(Encoded(contents, encode)) + [Frame(encode(ContentPayload(c)))]
  {
    var longer := Encoded(contents + [c], encode);
    var appended := Encoded(contents, encode) + [encode(ContentPayload(c))];
    forall k | 0 <= k < |longer| ensures longer[k] == appended[k] {
      if k < |contents| { assert (contents + [c])[k] == contents[k]; }
    }
    assert longer == appended;
    FramedThenOne(Encoded(contents, encode), encode(ContentPayload(c)));
  }

  /** One more payload adds one frame at the end. */
  lemma FramedThenOne(payloads: seq<string>, last: string)
    ensures Framed(payloads + [last]) == Framed(payloads) + [Frame(last)]
  {
    FramedAppend(payloads, [last]);
  }

  /** The `for await` loop: one frame for each chunk with a non-empty
      content, until the stream ends or a chunk without a `message` makes the
      logging line throw. Returns how many chunks were read. */
  method RelayChunks(chunks: seq<Chunk>, encode: Payload -> string, res: Response) returns (n: nat)
    requires !res.ended && res.written == []
    modifies res
    ensures n == ReadableCount(chunks)
    ensures res.written == Framed(Encoded(Contents(chunks[..n]), encode))
    ensures !res.ended && res.statusCode == old(res.statusCode)
    ensures res.headers == old(res.headers) && res.jsonBody == old(res.jsonBody)
  {
    n := 0;
    while n < |chunks| && chunks[n].message != None
      invariant 0 <= n <= ReadableCount(chunks)
      invariant !res.ended && res.statusCode == old(res.statusCode)
      invariant res.headers == old(res.headers) && res.jsonBody == old(res.jsonBody)
      invariant res.written == Framed(Encoded(Contents(chunks[..n]), encode))
    {
      var content := chunks[n].message.value;
      ContentsAppendChunk(chunks[..n], chunks[n]);
      assert chunks[..n + 1] == chunks[..n] + [chunks[n]];
      if content != "" {
        FramesAppendContent(Contents(chunks[..n]), content, encode);
        res.Write(Frame(encode(ContentPayload(content))));
      }
      n := n + 1;
    }
  }

  /** The endpoint. The backend's answer and the serialiser are parameters;
      the result is the message list handed to the backend, if it was
      called. */
  method Handler(req: Request, backend: Backend, encode: Payload -> string, res: Response)
    returns (sent: Option<seq<ChatMessage>>)
    requires res.Untouched()
    modifies res
    ensures res.ended
    ensures req.httpMethod != "POST" ==>
      sent == None && res.statusCode == 405 && res.headers == map["Allow" := ["POST"]]
      && res.jsonBody == Some(ErrorPayload("Method Not Allowed")) && res.written == []
    ensures req.httpMethod == "POST" && !IsValidPrompt(req.prompt) ==>
      sent == None && res.statusCode == 400 && res.headers == map[]
      && res.jsonBody == Some(ErrorPayload("Invalid prompt")) && res.written == []
    ensures req.httpMethod == "POST" && IsValidPrompt(req.prompt) ==>
      sent == Some(ModelMessages(req.history, req.prompt.text))
      && res.statusCode == 200 && res.headers == EventStreamHeaders && res.jsonBody == None
      && res.written == Framed(StreamData(backend, encode))
    ensures forall k :: 0 <= k < |res.written| ==> IsFrame(res.written[k])
  {
    if req.httpMethod != "POST" {
      res.SetHeader("Allow", ["POST"]);
      res.Status(405);
      res.Json(ErrorPayload("Method Not Allowed"));
      return None;
    }
    if !IsValidPrompt(req.prompt) {
      res.Status(400);
      res.Json(ErrorPayload("Invalid prompt"));
      return None;
    }
    var prompt := req.prompt.text;
    res.SetHeader("Content-Type", ["text/event-stream"]);
    res.SetHeader("Cache-Control", ["no-cache, no-transform"]);
    res.SetHeader("Connection", ["keep-alive"]);
    assert res.headers == EventStreamHeaders;

    var messages := if req.history.Some? then req.history.value else [];
    messages := messages + [ChatMessage("user", prompt)];
    sent := Some(messages);

    StreamReply(backend, encode, res);
  }

  /** The rest of the `try` block and its `catch`: relay the stream, then
      either `[DONE]` or, when anything threw before the response ended, the
      error frame; the response is ended either way. */
  method StreamReply(backend: Backend, encode: Payload -> string, res: Response)
    requires !res.ended && res.written == []
    modifies res
    ensures res.ended && res.written == Framed(StreamData(backend, encode))
    ensures res.statusCode == old(res.statusCode)
    ensures res.headers == old(res.headers) && res.jsonBody == old(res.jsonBody)
  {
    var failed := true;
    ghost var contents: seq<string> := [];
    match backend {
      case Rejected =>
      case NotIterable =>
      case Streaming(chunks, completes) =>
        var n := RelayChunks(chunks, encode, res);
        contents := Contents(chunks[..n]);
        failed := n < |chunks| || !completes;
        StreamingData(chunks, completes, encode);
    }
    ghost var body := Encoded(contents, encode);
    ghost var last := if failed then ErrorData(encode) else DoneSentinel;
    assert StreamData(backend, encode) == body + [last];
    FramedThenOne(body, last);

    if !failed {
      res.Write(Frame(DoneSentinel));
      res.End();
    } else if !res.ended {
      res.Write(Frame(ErrorData(encode)));
      res.End();
    }
  }
}
