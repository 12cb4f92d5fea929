/**
 * The echo command of the first server snapshot (server/echo/commands.py):
 * without a parameter it asks for the text; with one it answers a chat
 * message carrying that text. The reply is always a fresh message.
 */
module EchoCommand {
  import opened Envelope

  /** The name the command is registered under. */
  const NAME := "echo"
  const PROMPT := "Enter text for echo"

  /** `EchoCommand.execute`. */
  function Execute(request: Message, stamp: string -> string): (reply: Message)
    ensures !Truthy(Get(request, "param")) ==>
      Get(reply, ACTION) == Str("request") && Get(reply, "text") == Str(PROMPT) && Get(reply, "destination") == Str(NAME)
    ensures Truthy(Get(request, "param")) ==>
      Get(reply, ACTION) == Str("msg") && Get(reply, "text") == Get(request, "param")
    ensures reply.raw.Keys <= {ACTION, "text", "destination", TIME} && reply.attrs == map[]
  {
    var param := Get(request, "param");
    if !Truthy(param) then
      New(map[ACTION := Str("request"), "text" := Str(PROMPT), "destination" := Str(NAME)], stamp)
    else
      New(map[ACTION := Str("msg"), "text" := param], stamp)
  }

  /** Nothing of the request but its parameter reaches the reply: two requests with the same parameter get the same reply. */
  lemma ReplyDependsOnlyOnParam(r1: Message, r2: Message, stamp: string -> string)
    requires Get(r1, "param") == Get(r2, "param")
    ensures Execute(r1, stamp) == Execute(r2, stamp)
  {
  }
}
