/** The values that travel through the relay (relay/src/types.ts). */
module Messages {
  import opened Options

  /** A parsed JSON value. */
  datatype Json =
    | Null
    | Bool(bit: bool)
    | Number(number: int)
    | Text(text: string)
    | Array(items: seq<Json>)
    | Object(fields: seq<(string, Json)>)

  /** A JSON writer and reader, taken as given: reading what was written gives the value back. */
  datatype Codec = Codec(write: Json -> string, read: string -> Option<Json>) {
    ghost predicate Faithful() {
      forall j :: write(j) != "" && read(write(j)) == Some(j)
    }
  }

  datatype Role = Agent | Mobile

  datatype Claims = Claims(sessionId: string, role: Role)

  /** The part of an envelope that the sender's frame decides. */
  datatype Body = Body(
    kind: string,
    workspaceId: Option<string>,
    workspaceName: Option<string>,
    workspacePath: Option<string>,
    target: Option<string>,
    tool: Option<string>,
    text: Option<string>,
    payload: Option<Json>)

  datatype Envelope = Envelope(id: string, sessionId: string, source: Role, ts: int, body: Body)

  /** An entry of `listConnectedWorkspaces`. */
  datatype ConnectedWorkspace = ConnectedWorkspace(id: string, name: string, path: Option<string>, active: bool)
}
