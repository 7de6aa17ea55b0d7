/** The shapes of requests to and answers from the upstream model service. */
module Bedrock {
  import opened Wrappers

  /** A content block; fields that are absent or not strings are `None`, and `payload` is all the rest of it. */
  datatype Block = Block(kind: Option<string>, name: Option<string>, id: Option<string>, query: Option<string>,
                         payload: nat)

  datatype ToolResult = ToolResult(toolUseId: string, content: string, isError: bool)

  datatype Message = Original(n: nat) | Assistant(content: seq<Block>) | User(results: seq<ToolResult>)

  /** The typed request; `rest` stands for the fields these algorithms never touch. */
  datatype Request = Request(betas: seq<string>, messages: seq<Message>, rest: nat)

  datatype Element = Str(s: string) | NonString(n: nat)

  /** A request as JSON. `betas` is `None` when the field is absent or not an array. */
  datatype Body = Body(betas: Option<seq<Element>>, messages: seq<Message>, rest: nat)

  datatype Bytes = Encoded(body: Body) | Unparsable

  datatype Usage = Usage(input: int, output: int, cacheRead: int, cacheWrite: int)

  datatype Reply = Parsed(content: seq<Block>, usage: Usage, stop: Option<string>) | Garbled

  /** `validation` tells a ValidationException from every other failure. */
  datatype Answer = Accepted(reply: Reply) | Failed(validation: bool, message: string)

  /** An upstream service: what it answers to the n-th call of a request, given the bytes sent. */
  type Upstream = (nat, Bytes) -> Answer

  function Strings(betas: seq<string>): seq<Element> {
    seq(|betas|, i requires 0 <= i < |betas| => Str(betas[i]))
  }

  /** Serialisation leaves the beta field out when the list is empty. */
  function Encode(r: Request): Bytes {
    Encoded(Body(if r.betas == [] then None else Some(Strings(r.betas)), r.messages, r.rest))
  }
}
