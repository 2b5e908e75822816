/**
  The recording proxy (MiddlewareStart): the session flag with its start and
  stop guards, the TCP relay that forwards every chunk and folds it into the
  recorder's OutputServer or OutputClient rows, and the HTTP exchange that
  records one request row and one response row.
*/
module Proxy {
  import opened Wrappers
  import opened Text
  import opened Seqs
  import opened Records
  import opened Inspection

  /** The size of the relay's read buffer. */
  const BufferSize := 8192

  /** The status code an HttpListenerResponse carries until it is set. */
  const DefaultStatusCode := 200

  /** A listener field: never created, or created and possibly listening. */
  datatype ListenerSlot = Absent | Created(listening: bool)

  /** What the real server answered to a forwarded HTTP request. */
  datatype HttpReply = HttpReply(statusCode: int, body: seq<byte>)

  /**
    The HttpListenerResponse of one request, as far as the proxy sets it: the
    status code, the Content-Length header, the bytes written and whether it
    was closed.
  */
  class ListenerResponse {
    var statusCode: int
    var contentLength: Option<int>
    var body: seq<byte>
    var closed: bool

    /** A response as HttpListener hands it over: status 200, nothing written. */
    constructor()
      ensures statusCode == DefaultStatusCode && contentLength == None && body == [] && !closed
    {
      statusCode := DefaultStatusCode;
      contentLength := None;
      body := [];
      closed := false;
    }

    /** Passes the real server's reply on: its status, its length, its bytes, then Close. */
    method Send(reply: HttpReply)
      modifies this
      ensures statusCode == reply.statusCode && contentLength == Some(|reply.body|)
      ensures body == old(body) + reply.body && closed
    {
      statusCode := reply.statusCode;
      contentLength := Some(|reply.body|);
      body := body + reply.body;
      closed := true;
    }
  }

  /** The recorder as the proxy sees it: three flat record collections. */
  class RecorderLists {
    var inputClients: seq<InputClient>
    var outputServers: seq<OutputServer>
    var outputClients: seq<OutputClient>

    constructor(inputs: seq<InputClient>)
      ensures inputClients == inputs && outputServers == [] && outputClients == []
    {
      inputClients := inputs;
      outputServers := [];
      outputClients := [];
    }
  }

  /** A CancellationTokenSource: it is cancelled at most once and stays cancelled. */
  class CancellationSource {
    var cancelled: bool

    constructor()
      ensures !cancelled
    {
      cancelled := false;
    }

    method Cancel()
      modifies this
      ensures cancelled
    {
      cancelled := true;
    }
  }

  /** The stage traffic is attributed to: that of the last InputClient, if there is one. */
  function AttributedStage(inputs: seq<InputClient>): (r: Option<int>)
    ensures r.None? <==> inputs == []
    ensures r.Some? ==> r.value == inputs[|inputs| - 1].stage
  {
    if inputs == [] then None else Some(inputs[|inputs| - 1].stage)
  }

  /** The text and the tag of one chunk. */
  function ChunkText(chunk: seq<byte>, lib: Library): string {
    lib.decodeUtf8(chunk)
  }

  function ChunkType(chunk: seq<byte>, lib: Library): string {
    TagName(Classify(Some(chunk), lib))
  }

  /** The LastOrDefault selectors `s => s.Stage == stage` and `c => c.Stage == stage`. */
  function ServerOfStage(stage: int): OutputServer -> bool {
    (s: OutputServer) => s.stage == stage
  }

  function ClientOfStage(stage: int): OutputClient -> bool {
    (c: OutputClient) => c.stage == stage
  }

  /** An existing row absorbing a chunk: Method "TCP", text and size extended, data type of the chunk. */
  function GrowServer(r: OutputServer, chunk: seq<byte>, lib: Library): OutputServer {
    r.(verb := "TCP", dataRequest := r.dataRequest + ChunkText(chunk, lib),
       byteSize := r.byteSize + |chunk|, dataTypeMiddleware := ChunkType(chunk, lib))
  }

  function GrowClient(r: OutputClient, chunk: seq<byte>, lib: Library): OutputClient {
    r.(verb := "TCP", dataResponse := r.dataResponse + ChunkText(chunk, lib),
       byteSize := r.byteSize + |chunk|, dataTypeMiddleWare := ChunkType(chunk, lib))
  }

  /** A client-to-server chunk: added to the last OutputServer of the stage, or a new one is created. */
  function RecordTowardServer(servers: seq<OutputServer>, stage: int, chunk: seq<byte>, lib: Library): seq<OutputServer> {
    match LastIndexWhere(servers, ServerOfStage(stage))
    case Some(i) =>
      servers[i := GrowServer(servers[i], chunk, lib)]
    case None =>
      servers + [OutputServer(stage, "TCP", ChunkText(chunk, lib), "", ChunkType(chunk, lib), |chunk|)]
  }

  /** A server-to-client chunk: added to the last OutputClient of the stage, or a new one is created. */
  function RecordTowardClient(clients: seq<OutputClient>, stage: int, chunk: seq<byte>, lib: Library): seq<OutputClient> {
    match LastIndexWhere(clients, ClientOfStage(stage))
    case Some(i) =>
      clients[i := GrowClient(clients[i], chunk, lib)]
    case None =>
      clients + [OutputClient(stage, "TCP", ChunkText(chunk, lib), 0, "", ChunkType(chunk, lib), |chunk|)]
  }

  /** The OutputServer rows after recording the chunks in order. */
  function ServersAfter(servers: seq<OutputServer>, stage: int, chunks: seq<seq<byte>>, lib: Library): seq<OutputServer> {
    if chunks == [] then servers
    else RecordTowardServer(ServersAfter(servers, stage, chunks[..|chunks| - 1], lib), stage, chunks[|chunks| - 1], lib)
  }

  /** The OutputClient rows after recording the chunks in order. */
  function ClientsAfter(clients: seq<OutputClient>, stage: int, chunks: seq<seq<byte>>, lib: Library): seq<OutputClient> {
    if chunks == [] then clients
    else RecordTowardClient(ClientsAfter(clients, stage, chunks[..|chunks| - 1], lib), stage, chunks[|chunks| - 1], lib)
  }

  /** The chunks' texts, each decoded on its own, concatenated. */
  function DecodedConcat(chunks: seq<seq<byte>>, lib: Library): string {
    if chunks == [] then "" else DecodedConcat(chunks[..|chunks| - 1], lib) + ChunkText(chunks[|chunks| - 1], lib)
  }

  /** The number of bytes of the chunks. */
  function TotalSize(chunks: seq<seq<byte>>): nat {
    if chunks == [] then 0 else TotalSize(chunks[..|chunks| - 1]) + |chunks[|chunks| - 1]|
  }

  /** A single chunk's text and size. */
  lemma EmptyPrefix(chunks: seq<seq<byte>>, lib: Library)
    requires |chunks| == 1
    ensures DecodedConcat(chunks, lib) == ChunkText(chunks[0], lib) && TotalSize(chunks) == |chunks[0]|
  {
    assert chunks[..0] == [];
    assert "" + ChunkText(chunks[0], lib) == ChunkText(chunks[0], lib);
  }

  /** One relayed chunk's effect on the OutputServer rows: recorded only toward the server, for an attributed stage. */
  function ServersStep(inputs: seq<InputClient>, servers: seq<OutputServer>, direction: string, chunk: seq<byte>, lib: Library): seq<OutputServer> {
    match AttributedStage(inputs)
    case Some(stage) => if Contains(direction, "Client") then RecordTowardServer(servers, stage, chunk, lib) else servers
    case None => servers
  }

  /** One relayed chunk's effect on the OutputClient rows: recorded only toward the client, for an attributed stage. */
  function ClientsStep(inputs: seq<InputClient>, clients: seq<OutputClient>, direction: string, chunk: seq<byte>, lib: Library): seq<OutputClient> {
    match AttributedStage(inputs)
    case Some(stage) => if Contains(direction, "Client") then clients else RecordTowardClient(clients, stage, chunk, lib)
    case None => clients
  }

  function ServersRelayed(inputs: seq<InputClient>, servers: seq<OutputServer>, direction: string, chunks: seq<seq<byte>>, lib: Library): seq<OutputServer> {
    if chunks == [] then servers
    else ServersStep(inputs, ServersRelayed(inputs, servers, direction, chunks[..|chunks| - 1], lib), direction, chunks[|chunks| - 1], lib)
  }

  function ClientsRelayed(inputs: seq<InputClient>, clients: seq<OutputClient>, direction: string, chunks: seq<seq<byte>>, lib: Library): seq<OutputClient> {
    if chunks == [] then clients
    else ClientsStep(inputs, ClientsRelayed(inputs, clients, direction, chunks[..|chunks| - 1], lib), direction, chunks[|chunks| - 1], lib)
  }

  /** Relaying one more chunk is one more step. */
  lemma RelayedStep(inputs: seq<InputClient>, servers: seq<OutputServer>, clients: seq<OutputClient>,
                    direction: string, sent: seq<seq<byte>>, read: seq<byte>, lib: Library)
    ensures ServersRelayed(inputs, servers, direction, sent + [read], lib)
      == ServersStep(inputs, ServersRelayed(inputs, servers, direction, sent, lib), direction, read, lib)
    ensures ClientsRelayed(inputs, clients, direction, sent + [read], lib)
      == ClientsStep(inputs, ClientsRelayed(inputs, clients, direction, sent, lib), direction, read, lib)
  {
    assert (sent + [read])[..|sent|] == sent;
  }

  /**
    A relay records nothing without an InputClient; otherwise it folds every
    chunk into the rows of its direction for the last InputClient's stage and
    leaves the other direction's rows alone.
  */
  lemma {:induction false} RelayedRecordsOneSide(inputs: seq<InputClient>, servers: seq<OutputServer>, clients: seq<OutputClient>,
                                                 direction: string, chunks: seq<seq<byte>>, lib: Library)
    ensures match AttributedStage(inputs)
      case None =>
        ServersRelayed(inputs, servers, direction, chunks, lib) == servers
        && ClientsRelayed(inputs, clients, direction, chunks, lib) == clients
      case Some(stage) =>
        if Contains(direction, "Client") then
          ServersRelayed(inputs, servers, direction, chunks, lib) == ServersAfter(servers, stage, chunks, lib)
          && ClientsRelayed(inputs, clients, direction, chunks, lib) == clients
        else
          ClientsRelayed(inputs, clients, direction, chunks, lib) == ClientsAfter(clients, stage, chunks, lib)
          && ServersRelayed(inputs, servers, direction, chunks, lib) == servers
    decreases |chunks|
  {
    if chunks != [] {
      RelayedRecordsOneSide(inputs, servers, clients, direction, chunks[..|chunks| - 1], lib);
    }
  }

  /** `i` is the last OutputServer of the stage. */
  predicate LastServerOf(servers: seq<OutputServer>, stage: int, i: int) {
    0 <= i < |servers| && servers[i].stage == stage && forall j :: i < j < |servers| ==> servers[j].stage != stage
  }

  /** `i` is the last OutputClient of the stage. */
  predicate LastClientOf(clients: seq<OutputClient>, stage: int, i: int) {
    0 <= i < |clients| && clients[i].stage == stage && forall j :: i < j < |clients| ==> clients[j].stage != stage
  }

  lemma LastServerIsFound(servers: seq<OutputServer>, stage: int, i: int)
    requires LastServerOf(servers, stage, i)
    ensures LastIndexWhere(servers, ServerOfStage(stage)) == Some(i)
  {
    var p := ServerOfStage(stage);
    assert p(servers[i]);
  }

  lemma LastClientIsFound(clients: seq<OutputClient>, stage: int, i: int)
    requires LastClientOf(clients, stage, i)
    ensures LastIndexWhere(clients, ClientOfStage(stage)) == Some(i)
  {
    var p := ClientOfStage(stage);
    assert p(clients[i]);
  }

  /** An OutputServer row grown by chunks: request text and size extended, data type of the last chunk. */
  function GrownServer(r: OutputServer, chunks: seq<seq<byte>>, lib: Library): OutputServer
    requires chunks != []
  {
    r.(verb := "TCP", dataRequest := r.dataRequest + DecodedConcat(chunks, lib),
       byteSize := r.byteSize + TotalSize(chunks), dataTypeMiddleware := ChunkType(chunks[|chunks| - 1], lib))
  }

  /** An OutputClient row grown by chunks: response text and size extended, data type of the last chunk. */
  function GrownClient(r: OutputClient, chunks: seq<seq<byte>>, lib: Library): OutputClient
    requires chunks != []
  {
    r.(verb := "TCP", dataResponse := r.dataResponse + DecodedConcat(chunks, lib),
       byteSize := r.byteSize + TotalSize(chunks), dataTypeMiddleWare := ChunkType(chunks[|chunks| - 1], lib))
  }

  lemma UpdateTwice<T>(s: seq<T>, i: int, a: T, b: T)
    requires 0 <= i < |s|
    ensures s[i := a][i := b] == s[i := b]
  {
  }

  lemma AppendThenUpdate<T>(s: seq<T>, a: T, b: T)
    ensures (s + [a])[|s| := b] == s + [b]
  {
  }

  /** A chunk toward the server grows the last OutputServer of its stage. */
  lemma RecordOnLastServer(servers: seq<OutputServer>, stage: int, chunk: seq<byte>, lib: Library, i: int)
    requires LastServerOf(servers, stage, i)
    ensures RecordTowardServer(servers, stage, chunk, lib) == servers[i := GrowServer(servers[i], chunk, lib)]
  {
    LastServerIsFound(servers, stage, i);
  }

  /** A chunk toward the client grows the last OutputClient of its stage. */
  lemma RecordOnLastClient(clients: seq<OutputClient>, stage: int, chunk: seq<byte>, lib: Library, i: int)
    requires LastClientOf(clients, stage, i)
    ensures RecordTowardClient(clients, stage, chunk, lib) == clients[i := GrowClient(clients[i], chunk, lib)]
  {
    LastClientIsFound(clients, stage, i);
  }

  /** Growing by the chunks and then one more chunk is growing by all of them. */
  lemma GrownServerStep(r: OutputServer, chunks: seq<seq<byte>>, lib: Library)
    requires |chunks| > 1
    ensures GrownServer(r, chunks, lib) == GrowServer(GrownServer(r, chunks[..|chunks| - 1], lib), chunks[|chunks| - 1], lib)
  {
    var init := chunks[..|chunks| - 1];
    var last := chunks[|chunks| - 1];
    assert init[..|init| - 1] == chunks[..|chunks| - 2];
    assert DecodedConcat(chunks, lib) == DecodedConcat(init, lib) + ChunkText(last, lib);
    assert r.dataRequest + DecodedConcat(chunks, lib) == (r.dataRequest + DecodedConcat(init, lib)) + ChunkText(last, lib);
    assert TotalSize(chunks) == TotalSize(init) + |last|;
  }

  lemma GrownClientStep(r: OutputClient, chunks: seq<seq<byte>>, lib: Library)
    requires |chunks| > 1
    ensures GrownClient(r, chunks, lib) == GrowClient(GrownClient(r, chunks[..|chunks| - 1], lib), chunks[|chunks| - 1], lib)
  {
    var init := chunks[..|chunks| - 1];
    var last := chunks[|chunks| - 1];
    assert init[..|init| - 1] == chunks[..|chunks| - 2];
    assert DecodedConcat(chunks, lib) == DecodedConcat(init, lib) + ChunkText(last, lib);
    assert r.dataResponse + DecodedConcat(chunks, lib) == (r.dataResponse + DecodedConcat(init, lib)) + ChunkText(last, lib);
    assert TotalSize(chunks) == TotalSize(init) + |last|;
  }

  /**
    Chunks toward the server accumulate into the existing last OutputServer
    of the stage, and no other row changes.
  */
  lemma {:induction false} ServersAccumulate(servers: seq<OutputServer>, stage: int, chunks: seq<seq<byte>>, lib: Library, i: int)
    requires LastServerOf(servers, stage, i) && chunks != []
    ensures ServersAfter(servers, stage, chunks, lib) == servers[i := GrownServer(servers[i], chunks, lib)]
    decreases |chunks|
  {
    var init := chunks[..|chunks| - 1];
    if init == [] {
      ServersAccumulateOne(servers, stage, chunks, lib, i);
    } else {
      ServersAccumulate(servers, stage, init, lib, i);
      ServersAccumulateStep(servers, stage, chunks, lib, i);
    }
  }

  /** The base case of ServersAccumulate: a single chunk grows the row. */
  lemma ServersAccumulateOne(servers: seq<OutputServer>, stage: int, chunks: seq<seq<byte>>, lib: Library, i: int)
    requires LastServerOf(servers, stage, i) && |chunks| == 1
    ensures ServersAfter(servers, stage, chunks, lib) == servers[i := GrownServer(servers[i], chunks, lib)]
  {
    assert chunks[..0] == [];
    assert ServersAfter(servers, stage, chunks, lib) == RecordTowardServer(servers, stage, chunks[0], lib);
    RecordOnLastServer(servers, stage, chunks[0], lib, i);
    assert GrowServer(servers[i], chunks[0], lib) == GrownServer(servers[i], chunks, lib) by {
      EmptyPrefix(chunks, lib);
    }
  }

  /** The inductive step of ServersAccumulate: one more chunk grows the same row. */
  lemma ServersAccumulateStep(servers: seq<OutputServer>, stage: int, chunks: seq<seq<byte>>, lib: Library, i: int)
    requires LastServerOf(servers, stage, i) && |chunks| > 1
    requires ServersAfter(servers, stage, chunks[..|chunks| - 1], lib) == servers[i := GrownServer(servers[i], chunks[..|chunks| - 1], lib)]
    ensures ServersAfter(servers, stage, chunks, lib) == servers[i := GrownServer(servers[i], chunks, lib)]
  {
    var init := chunks[..|chunks| - 1];
    var grown := GrownServer(servers[i], init, lib);
    var before := servers[i := grown];
    assert LastServerOf(before, stage, i) by {
      forall j | i < j < |before| ensures before[j].stage != stage {
        assert before[j] == servers[j];
      }
    }
    RecordOnLastServer(before, stage, chunks[|chunks| - 1], lib, i);
    GrownServerStep(servers[i], chunks, lib);
    UpdateTwice(servers, i, grown, GrownServer(servers[i], chunks, lib));
  }

  /**
    Chunks toward the server for a stage without an OutputServer create
    exactly one row holding all of them.
  */
  lemma {:induction false} ServersCreate(servers: seq<OutputServer>, stage: int, chunks: seq<seq<byte>>, lib: Library)
    requires forall j :: 0 <= j < |servers| ==> servers[j].stage != stage
    requires chunks != []
    ensures ServersAfter(servers, stage, chunks, lib)
      == servers + [GrownServer(OutputServer(stage, "TCP", "", "", "", 0), chunks, lib)]
    decreases |chunks|
  {
    var init := chunks[..|chunks| - 1];
    var p := ServerOfStage(stage);
    if init == [] {
      assert forall j :: 0 <= j < |servers| ==> !p(servers[j]);
      EmptyPrefix(chunks, lib);
    } else {
      ServersCreate(servers, stage, init, lib);
      var before := servers + [GrownServer(OutputServer(stage, "TCP", "", "", "", 0), init, lib)];
      assert LastServerOf(before, stage, |servers|);
      RecordOnLastServer(before, stage, chunks[|chunks| - 1], lib, |servers|);
      GrownServerStep(OutputServer(stage, "TCP", "", "", "", 0), chunks, lib);
      AppendThenUpdate(servers, GrownServer(OutputServer(stage, "TCP", "", "", "", 0), init, lib),
                       GrownServer(OutputServer(stage, "TCP", "", "", "", 0), chunks, lib));
    }
  }

  /** The OutputClient counterpart of ServersAccumulate. */
  lemma {:induction false} ClientsAccumulate(clients: seq<OutputClient>, stage: int, chunks: seq<seq<byte>>, lib: Library, i: int)
    requires LastClientOf(clients, stage, i) && chunks != []
    ensures ClientsAfter(clients, stage, chunks, lib) == clients[i := GrownClient(clients[i], chunks, lib)]
    decreases |chunks|
  {
    var init := chunks[..|chunks| - 1];
    if init == [] {
      ClientsAccumulateOne(clients, stage, chunks, lib, i);
    } else {
      ClientsAccumulate(clients, stage, init, lib, i);
      ClientsAccumulateStep(clients, stage, chunks, lib, i);
    }
  }

  /** The base case of ClientsAccumulate: a single chunk grows the row. */
  lemma ClientsAccumulateOne(clients: seq<OutputClient>, stage: int, chunks: seq<seq<byte>>, lib: Library, i: int)
    requires LastClientOf(clients, stage, i) && |chunks| == 1
    ensures ClientsAfter(clients, stage, chunks, lib) == clients[i := GrownClient(clients[i], chunks, lib)]
  {
    assert chunks[..0] == [];
    assert ClientsAfter(clients, stage, chunks, lib) == RecordTowardClient(clients, stage, chunks[0], lib);
    RecordOnLastClient(clients, stage, chunks[0], lib, i);
    assert GrowClient(clients[i], chunks[0], lib) == GrownClient(clients[i], chunks, lib) by {
      EmptyPrefix(chunks, lib);
    }
  }

  /** The inductive step of ClientsAccumulate: one more chunk grows the same row. */
  lemma ClientsAccumulateStep(clients: seq<OutputClient>, stage: int, chunks: seq<seq<byte>>, lib: Library, i: int)
    requires LastClientOf(clients, stage, i) && |chunks| > 1
    requires ClientsAfter(clients, stage, chunks[..|chunks| - 1], lib) == clients[i := GrownClient(clients[i], chunks[..|chunks| - 1], lib)]
    ensures ClientsAfter(clients, stage, chunks, lib) == clients[i := GrownClient(clients[i], chunks, lib)]
  {
    var init := chunks[..|chunks| - 1];
    var grown := GrownClient(clients[i], init, lib);
    var before := clients[i := grown];
    assert LastClientOf(before, stage, i) by {
      forall j | i < j < |before| ensures before[j].stage != stage {
        assert before[j] == clients[j];
      }
    }
    RecordOnLastClient(before, stage, chunks[|chunks| - 1], lib, i);
    GrownClientStep(clients[i], chunks, lib);
    UpdateTwice(clients, i, grown, GrownClient(clients[i], chunks, lib));
  }

  /** The OutputClient counterpart of ServersCreate. */
  lemma {:induction false} ClientsCreate(clients: seq<OutputClient>, stage: int, chunks: seq<seq<byte>>, lib: Library)
    requires forall j :: 0 <= j < |clients| ==> clients[j].stage != stage
    requires chunks != []
    ensures ClientsAfter(clients, stage, chunks, lib)
      == clients + [GrownClient(OutputClient(stage, "TCP", "", 0, "", "", 0), chunks, lib)]
    decreases |chunks|
  {
    var init := chunks[..|chunks| - 1];
    var p := ClientOfStage(stage);
    if init == [] {
      assert forall j :: 0 <= j < |clients| ==> !p(clients[j]);
      EmptyPrefix(chunks, lib);
    } else {
      ClientsCreate(clients, stage, init, lib);
      var before := clients + [GrownClient(OutputClient(stage, "TCP", "", 0, "", "", 0), init, lib)];
      assert LastClientOf(before, stage, |clients|);
      RecordOnLastClient(before, stage, chunks[|chunks| - 1], lib, |clients|);
      GrownClientStep(OutputClient(stage, "TCP", "", 0, "", "", 0), chunks, lib);
      AppendThenUpdate(clients, GrownClient(OutputClient(stage, "TCP", "", 0, "", "", 0), init, lib),
                       GrownClient(OutputClient(stage, "TCP", "", 0, "", "", 0), chunks, lib));
    }
  }

  /**
    The data type of an accumulated row is that of the last chunk alone: a
    NUL byte followed by a chunk of digits is recorded as "Integer", while the
    bytes together classify as "Binary".
  */
  lemma LatestChunkDecidesType(r: OutputServer, digits: seq<byte>, lib: Library)
    requires DecodesAscii(lib) && IsDigitBytes(digits) && DigitBytesValue(digits) <= Int64Max
    ensures var chunks: seq<seq<byte>> := [[0], digits];
      && GrownServer(r, chunks, lib).dataTypeMiddleware == "Integer"
      && ChunkType(Flatten(chunks), lib) == "Binary"
  {
    var chunks: seq<seq<byte>> := [[0], digits];
    assert ChunkType(digits, lib) == "Integer" by {
      DigitsAreInteger(false, digits, 0, lib);
      assert digits + seq(0, _ => 0) == digits;
    }
    GrownServerType(r, chunks, lib);
    FlattenTwo([0], digits);
    NulThenDigitsIsBinary(digits, lib);
  }

  /** A grown row carries the data type of the last chunk. */
  lemma GrownServerType(r: OutputServer, chunks: seq<seq<byte>>, lib: Library)
    requires chunks != []
    ensures GrownServer(r, chunks, lib).dataTypeMiddleware == ChunkType(chunks[|chunks| - 1], lib)
  {
  }

  lemma FlattenTwo(a: seq<byte>, b: seq<byte>)
    ensures Flatten([a, b]) == a + b
  {
    var ss := [a, b];
    assert ss[..1] == [a] && [a][..0] == [];
    assert Flatten([a]) == [] + a;
  }

  /** A NUL byte followed by digits is neither a number nor wrapped text, and the NUL is not printable. */
  lemma NulThenDigitsIsBinary(digits: seq<byte>, lib: Library)
    requires DecodesAscii(lib) && IsDigitBytes(digits)
    ensures ChunkType([0] + digits, lib) == "Binary"
  {
    var whole: seq<byte> := [0] + digits;
    NulDigitsText(digits, lib);
    var t := TrimmedText(whole, lib);
    NotIntegerByFirst(t);
    assert !StartsWith(t, "{") && !StartsWith(t, "<") by {
      assert t[..1][0] == '\0';
    }
    assert !IsPrintable(whole[0]);
    BinaryByFirstByte(whole, lib);
  }

  /** The trimmed text of a NUL byte followed by digits starts with the NUL. */
  lemma NulDigitsText(digits: seq<byte>, lib: Library)
    requires DecodesAscii(lib) && IsDigitBytes(digits)
    ensures |TrimmedText([0] + digits, lib)| > 0 && TrimmedText([0] + digits, lib)[0] == '\0'
  {
    var whole: seq<byte> := [0] + digits;
    assert forall i :: 0 <= i < |whole| ==> whole[i] < 128 by {
      forall i | 0 <= i < |whole| ensures whole[i] < 128 {
        if i > 0 {
          assert whole[i] == digits[i - 1];
        }
      }
    }
    var t := AsciiText(whole);
    assert lib.decodeUtf8(whole) == t;
    AsciiDigitsText(digits);
    assert IsDigit(t[|t| - 1]) by {
      assert t[|t| - 1] == AsciiText(digits)[|digits| - 1];
    }
    TrimUnchanged(t);
  }

  /** The request row ProcessHttpRequest adds before forwarding. */
  function RequestRecord(stage: int, httpMethod: string, requestBody: string, requestBytes: seq<byte>, lib: Library): (r: OutputServer)
    ensures r.stage == stage && r.verb == httpMethod && r.dataRequest == requestBody && r.output == ""
    ensures r.byteSize == |requestBytes|
    ensures r.dataTypeMiddleware in {"Empty", "Integer", "JSON", "XML", "String", "Binary"}
  {
    OutputServer(stage, httpMethod, requestBody, "", TagName(Classify(Some(requestBytes), lib)), |requestBytes|)
  }

  /**
    The response row as the source builds it: ByteSize is the request's size
    and StatusCode is `shownStatus`, what the outgoing response carries before
    the reply's status is copied into it.
  */
  function ResponseRecordAsWritten(stage: int, httpMethod: string, requestBytes: seq<byte>, shownStatus: int,
                                   reply: HttpReply, lib: Library): (r: OutputClient)
    ensures r.statusCode == shownStatus && r.byteSize == |requestBytes|
    ensures r.dataResponse == lib.decodeUtf8(reply.body)
    ensures r.dataTypeMiddleWare in {"Empty", "Integer", "JSON", "XML", "String", "Binary"}
  {
    OutputClient(stage, httpMethod, lib.decodeUtf8(reply.body), shownStatus, "", TagName(Classify(Some(reply.body), lib)), |requestBytes|)
  }

  /** The response row describing the reply: its status code and its size. */
  function ResponseRecord(stage: int, httpMethod: string, reply: HttpReply, lib: Library): (r: OutputClient)
    ensures r.statusCode == reply.statusCode && r.byteSize == |reply.body|
    ensures r.dataResponse == lib.decodeUtf8(reply.body)
    ensures r.dataTypeMiddleWare in {"Empty", "Integer", "JSON", "XML", "String", "Binary"}
  {
    OutputClient(stage, httpMethod, lib.decodeUtf8(reply.body), reply.statusCode, "", TagName(Classify(Some(reply.body), lib)), |reply.body|)
  }

  /**
    The row as written agrees with the reply only when the server answered
    200 with a body exactly as long as the request.
  */
  lemma AsWrittenAgreesOnlyBySize(stage: int, httpMethod: string, requestBytes: seq<byte>, reply: HttpReply, lib: Library)
    ensures ResponseRecordAsWritten(stage, httpMethod, requestBytes, DefaultStatusCode, reply, lib) == ResponseRecord(stage, httpMethod, reply, lib)
      <==> reply.statusCode == DefaultStatusCode && |requestBytes| == |reply.body|
  {
    var a := ResponseRecordAsWritten(stage, httpMethod, requestBytes, DefaultStatusCode, reply, lib);
    var b := ResponseRecord(stage, httpMethod, reply, lib);
    if a == b {
      assert a.statusCode == b.statusCode && a.byteSize == b.byteSize;
    }
  }

  /** A GET with an empty body answered "404" with 9 bytes is recorded as 200 and 0 bytes. */
  lemma AsWrittenNotFoundExample(lib: Library)
    ensures var reply := HttpReply(404, [78, 111, 116, 32, 70, 111, 117, 110, 100]);
      var r := ResponseRecordAsWritten(1, "GET", [], DefaultStatusCode, reply, lib);
      r.statusCode == 200 && r.byteSize == 0 && ResponseRecord(1, "GET", reply, lib).byteSize == 9
  {
  }

  class MiddlewareStart {
    var recorder: RecorderLists?
    var cts: CancellationSource?
    var sessionRunning: bool
    var httpListener: ListenerSlot
    var tcpListener: ListenerSlot

    /** The singleton's initial state: no recorder, no session, no listener. */
    constructor()
      ensures recorder == null && cts == null && !sessionRunning
      ensures httpListener == Absent && tcpListener == Absent
    {
      recorder := null;
      cts := null;
      sessionRunning := false;
      httpListener := Absent;
      tcpListener := Absent;
    }

    /**
      StartAsync: a no-op while a session runs. Otherwise a fresh cancellation
      source, the running flag, then the listener of the chosen protocol; a
      failed bind is caught, so the flag stays set with a listener that does
      not listen.
    */
    method StartAsync(useHttp: bool, bindSucceeds: bool)
      modifies this
      ensures recorder == old(recorder)
      ensures old(sessionRunning) ==>
        cts == old(cts) && sessionRunning && httpListener == old(httpListener) && tcpListener == old(tcpListener)
      ensures !old(sessionRunning) ==>
        && sessionRunning && cts != null && fresh(cts) && !cts.cancelled
        && httpListener == (if useHttp then Created(bindSucceeds) else old(httpListener))
        && tcpListener == (if useHttp then old(tcpListener) else Created(bindSucceeds))
    {
      if sessionRunning {
        return;
      }
      cts := new CancellationSource();
      sessionRunning := true;
      if useHttp {
        httpListener := Created(bindSucceeds);
      } else {
        tcpListener := Created(bindSucceeds);
      }
    }

    /**
      StopAsync: a no-op when no session runs. Otherwise the flag is cleared,
      the cancellation source is cancelled and dropped, the HTTP listener is
      dropped if it was listening and the TCP listener is dropped.
    */
    method StopAsync()
      modifies this, cts
      ensures recorder == old(recorder)
      ensures !sessionRunning
      ensures !old(sessionRunning) ==>
        cts == old(cts) && httpListener == old(httpListener) && tcpListener == old(tcpListener)
        && (old(cts) != null ==> old(cts).cancelled == old(cts.cancelled))
      ensures old(sessionRunning) ==>
        && cts == null && (old(cts) != null ==> old(cts).cancelled)
        && httpListener == (if old(httpListener) == Created(true) then Absent else old(httpListener))
        && tcpListener == Absent
    {
      if !sessionRunning {
        return;
      }
      sessionRunning := false;
      if cts != null {
        cts.Cancel();
      }
      cts := null;
      if httpListener == Created(true) {
        httpListener := Absent;
      }
      if tcpListener != Absent {
        tcpListener := Absent;
      }
    }

    /**
      RelayDataAsync: reads chunks until an empty read, writes each one to the
      peer unchanged and then, when a recorder with an InputClient exists,
      records it for the last InputClient's stage: toward the server when the
      direction names "Client", toward the client otherwise.
    */
    method RelayData(chunks: seq<seq<byte>>, direction: string, lib: Library) returns (sent: seq<seq<byte>>)
      requires forall i :: 0 <= i < |chunks| ==> |chunks[i]| <= BufferSize
      modifies recorder
      ensures sent == Received(chunks)
      ensures recorder != null ==>
        && recorder.inputClients == old(recorder.inputClients)
        && recorder.outputServers == ServersRelayed(old(recorder.inputClients), old(recorder.outputServers), direction, sent, lib)
        && recorder.outputClients == ClientsRelayed(old(recorder.inputClients), old(recorder.outputClients), direction, sent, lib)
    {
      var n := CountUntilEmpty(chunks);
      sent := [];
      var i := 0;
      while i < |chunks| && chunks[i] != []
        invariant i <= n
        invariant sent == chunks[..i]
        invariant recorder != null ==>
          && recorder.inputClients == old(recorder.inputClients)
          && recorder.outputServers == ServersRelayed(old(recorder.inputClients), old(recorder.outputServers), direction, sent, lib)
          && recorder.outputClients == ClientsRelayed(old(recorder.inputClients), old(recorder.outputClients), direction, sent, lib)
      {
        ReadAgain(chunks, i);
        var read := chunks[i];
        if recorder != null {
          RelayedStep(old(recorder.inputClients), old(recorder.outputServers), old(recorder.outputClients), direction, sent, read, lib);
        }
        sent := sent + [read];
        RecordChunk(read, direction, lib);
        i := i + 1;
      }
      ReadStops(chunks, i);
    }

    /** The body of the relay loop after the write: the chunk recorded for the last InputClient's stage. */
    method RecordChunk(read: seq<byte>, direction: string, lib: Library)
      modifies recorder
      ensures recorder != null ==>
        && recorder.inputClients == old(recorder.inputClients)
        && recorder.outputServers == ServersStep(old(recorder.inputClients), old(recorder.outputServers), direction, read, lib)
        && recorder.outputClients == ClientsStep(old(recorder.inputClients), old(recorder.outputClients), direction, read, lib)
    {
      if recorder != null && recorder.inputClients != [] {
        var stage := recorder.inputClients[|recorder.inputClients| - 1].stage;
        if Contains(direction, "Client") {
          recorder.outputServers := RecordTowardServer(recorder.outputServers, stage, read, lib);
        } else {
          recorder.outputClients := RecordTowardClient(recorder.outputClients, stage, read, lib);
        }
      }
    }

    /** The request row, added before forwarding when a recorder holds an InputClient. */
    method RecordRequest(httpMethod: string, requestBody: string, requestBytes: seq<byte>, lib: Library)
      modifies recorder
      ensures recorder != null ==>
        && recorder.inputClients == old(recorder.inputClients)
        && recorder.outputClients == old(recorder.outputClients)
        && recorder.outputServers == old(recorder.outputServers)
             + match AttributedStage(old(recorder.inputClients))
               case None => []
               case Some(stage) => [RequestRecord(stage, httpMethod, requestBody, requestBytes, lib)]
    {
      if recorder != null && recorder.inputClients != [] {
        var stage := recorder.inputClients[|recorder.inputClients| - 1].stage;
        recorder.outputServers := recorder.outputServers + [RequestRecord(stage, httpMethod, requestBody, requestBytes, lib)];
      }
    }

    /**
      ProcessHttpRequest as written: the request row is added before
      forwarding; when the real server answers, the response row is added
      while `response` still carries its initial status, and only then is the
      reply copied into `response` and sent. A forwarding failure adds no
      response row and leaves `response` untouched.
    */
    method ProcessHttpRequest(httpMethod: string, requestBody: string, requestBytes: seq<byte>,
                              reply: Option<HttpReply>, response: ListenerResponse, lib: Library)
      modifies recorder, response
      ensures reply.None? ==> unchanged(response)
      ensures reply.Some? ==>
        && response.statusCode == reply.value.statusCode && response.contentLength == Some(|reply.value.body|)
        && response.body == old(response.body) + reply.value.body && response.closed
      ensures recorder != null ==>
        && recorder.inputClients == old(recorder.inputClients)
        && match AttributedStage(old(recorder.inputClients))
           case None =>
             recorder.outputServers == old(recorder.outputServers) && recorder.outputClients == old(recorder.outputClients)
           case Some(stage) =>
             && recorder.outputServers == old(recorder.outputServers) + [RequestRecord(stage, httpMethod, requestBody, requestBytes, lib)]
             && recorder.outputClients == old(recorder.outputClients)
                  + (if reply.Some? then [ResponseRecordAsWritten(stage, httpMethod, requestBytes, old(response.statusCode), reply.value, lib)] else [])
    {
      RecordRequest(httpMethod, requestBody, requestBytes, lib);
      if reply.Some? {
        if recorder != null && recorder.inputClients != [] {
          var stage := recorder.inputClients[|recorder.inputClients| - 1].stage;
          var row := ResponseRecordAsWritten(stage, httpMethod, requestBytes, response.statusCode, reply.value, lib);
          recorder.outputClients := recorder.outputClients + [row];
        }
        response.Send(reply.value);
      }
    }

    /**
      ProcessHttpRequest as evidently intended: the reply is sent first and
      the response row is then read off what was sent, so it records the
      status code and the Content-Length the client receives.
    */
    method ProcessHttpRequestCorrected(httpMethod: string, requestBody: string, requestBytes: seq<byte>,
                                       reply: Option<HttpReply>, response: ListenerResponse, lib: Library)
      requires response.body == []
      modifies recorder, response
      ensures reply.None? ==> unchanged(response)
      ensures reply.Some? ==>
        && response.statusCode == reply.value.statusCode && response.contentLength == Some(|reply.value.body|)
        && response.body == reply.value.body && response.closed
      ensures recorder != null ==>
        && recorder.inputClients == old(recorder.inputClients)
        && match AttributedStage(old(recorder.inputClients))
           case None =>
             recorder.outputServers == old(recorder.outputServers) && recorder.outputClients == old(recorder.outputClients)
           case Some(stage) =>
             && recorder.outputServers == old(recorder.outputServers) + [RequestRecord(stage, httpMethod, requestBody, requestBytes, lib)]
             && recorder.outputClients == old(recorder.outputClients)
                  + (if reply.Some? then [ResponseRecord(stage, httpMethod, reply.value, lib)] else [])
             && (reply.Some? ==>
                 var row := recorder.outputClients[|recorder.outputClients| - 1];
                 && row.statusCode == response.statusCode
                 && response.contentLength == Some(row.byteSize)
                 && row.dataResponse == lib.decodeUtf8(response.body))
    {
      RecordRequest(httpMethod, requestBody, requestBytes, lib);
      if reply.Some? {
        response.Send(reply.value);
        if recorder != null && recorder.inputClients != [] {
          var stage := recorder.inputClients[|recorder.inputClients| - 1].stage;
          var sent := response.body;
          var row := OutputClient(stage, httpMethod, lib.decodeUtf8(sent), response.statusCode, "",
                                  TagName(Classify(Some(sent), lib)), response.contentLength.value);
          recorder.outputClients := recorder.outputClients + [row];
        }
      }
    }
  }

  /** The bytes written to the peer are the bytes read, in order, up to the first empty read. */
  lemma RelayIsIdentity(chunks: seq<seq<byte>>)
    ensures Flatten(Received(chunks)) + Flatten(chunks[CountUntilEmpty(chunks)..]) == Flatten(chunks)
  {
    var n := CountUntilEmpty(chunks);
    assert chunks == chunks[..n] + chunks[n..];
    FlattenAppend(chunks[..n], chunks[n..]);
  }

  /**
    A session from start to stop: the first start runs the session, a second
    start changes nothing, stopping cancels the source and clears the flag,
    and a second stop changes nothing.
  */
  method SessionExample() returns (runningAfterStarts: bool, runningAfterStops: bool, cancelled: bool)
    ensures runningAfterStarts && !runningAfterStops && cancelled
  {
    var m := new MiddlewareStart();
    m.StartAsync(false, true);
    var source := m.cts;
    m.StartAsync(true, true);
    assert m.cts == source && m.httpListener == Absent;
    runningAfterStarts := m.sessionRunning;
    m.StopAsync();
    m.StopAsync();
    runningAfterStops := m.sessionRunning;
    cancelled := source.cancelled;
  }

  /**
    The exchange of the finding, run through the method as written: an empty
    GET answered 404 with 9 bytes is recorded with status 200 and size 0,
    while the client receives status 404 and a Content-Length of 9.
  */
  method NotFoundExchangeExample(lib: Library)
    returns (recordedStatus: int, recordedSize: int, sentStatus: int, sentLength: Option<int>)
    ensures recordedStatus == 200 && recordedSize == 0
    ensures sentStatus == 404 && sentLength == Some(9)
  {
    var m := new MiddlewareStart();
    var lists := new RecorderLists([InputClient(1, "Login", "", "")]);
    m.recorder := lists;
    var response := new ListenerResponse();
    var reply := HttpReply(404, [78, 111, 116, 32, 70, 111, 117, 110, 100]);
    assert AttributedStage(lists.inputClients) == Some(1);
    m.ProcessHttpRequest("GET", "", [], Some(reply), response, lib);
    recordedStatus := lists.outputClients[0].statusCode;
    recordedSize := lists.outputClients[0].byteSize;
    sentStatus := response.statusCode;
    sentLength := response.contentLength;
  }
}
