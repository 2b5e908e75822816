/**
  The recorded data of a test kit: one TestStage per stage number, holding
  the InputClient rows typed by the tester and the OutputClient and
  OutputServer rows captured from the console and the proxy. The records are
  values; an update of a record in place is the replacement of the element
  of its sequence. A null string of the source is the empty string here.
*/
module Records {

  /** Input_Client: the action the tester declared for a stage. */
  datatype InputClient = InputClient(stage: int, action: string, input: string, dataType: string)

  /** OutputClient: what the client side produced or received in a stage (`verb` is the Method column). */
  datatype OutputClient = OutputClient(
    stage: int,
    verb: string,
    dataResponse: string,
    statusCode: int,
    output: string,
    dataTypeMiddleWare: string,
    byteSize: int)

  /** OutputServer: what the server side produced or received in a stage (`verb` is the Method column). */
  datatype OutputServer = OutputServer(
    stage: int,
    verb: string,
    dataRequest: string,
    output: string,
    dataTypeMiddleware: string,
    byteSize: int)

  /** TestStage: the three record collections of one stage. */
  datatype TestStage = TestStage(
    inputClients: seq<InputClient>,
    outputClients: seq<OutputClient>,
    outputServers: seq<OutputServer>)

  /** `new TestStage()`: three empty collections. */
  const EmptyStage := TestStage([], [], [])

  /** `new OutputClient { Stage = stage }`. */
  function NewOutputClient(stage: int): OutputClient {
    OutputClient(stage, "", "", 0, "", "", 0)
  }

  /** `new OutputServer { Stage = stage }`. */
  function NewOutputServer(stage: int): OutputServer {
    OutputServer(stage, "", "", "", "", 0)
  }
}
