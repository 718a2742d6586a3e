/** The values the parser produces: decoded arguments, tool calls and memory calls. */
module Calls {

  /** A decoded JSON value, the `arguments` of a call. */
  datatype Json =
    | JNull
    | JBool(b: bool)
    | JNumber(literal: string)
    | JString(s: string)
    | JArray(items: seq<Json>)
    | JObject(members: seq<(string, Json)>)

  /** A request to run the tool `name` with the decoded `arguments`. */
  datatype ToolCall = ToolCall(instructions: string, callId: string, name: string, arguments: Json)

  /** A durable-memory operation; same layout as a tool call, identified by `memoryId`. */
  datatype MemoryCall = MemoryCall(instructions: string, memoryId: string, name: string, arguments: Json)

  /** The call half of a streamed event: a tool call or a memory call, never both. */
  datatype Call = Tool(tool: ToolCall) | Memory(memory: MemoryCall)
}
