/**
 * The chat-message command of the first server snapshot
 * (server/message/commands.py): it fills in a missing destination from the
 * text and accepts the request only when action, text, time and user are all
 * set.
 */
module MsgCommand {
  import opened Wrappers
  import opened Envelope

  const NAME := "msg"
  const NOT_VALID := "request is not valid"

  /** `text.split(':')[0]`: the text before the first colon, or all of it. */
  function BeforeColon(s: string): (r: string)
    ensures ':' !in r
    ensures |r| <= |s| && r == s[..|r|]
    ensures |r| < |s| ==> s[|r|] == ':'
  {
    if s == [] then []
    else if s[0] == ':' then []
    else [s[0]] + BeforeColon(s[1..])
  }

  /**
   * The destination `validate` settles on: an existing (truthy) destination
   * is kept; otherwise the text before the first colon, or the empty string
   * when there is no text. A text that is truthy but not a string has no
   * `split`, and the AttributeError is None here.
   */
  function Destination(request: Message): (d: Option<Value>)
    ensures Truthy(Get(request, "destination")) ==> d == Some(Get(request, "destination"))
    ensures !Truthy(Get(request, "destination")) && !Truthy(Get(request, "text")) ==> d == Some(Str(""))
    ensures !Truthy(Get(request, "destination")) && Get(request, "text").Str? && Truthy(Get(request, "text")) ==>
      d == Some(Str(BeforeColon(Get(request, "text").s)))
    ensures d.None? <==> !Truthy(Get(request, "destination")) && Truthy(Get(request, "text")) && !Get(request, "text").Str?
  {
    var dest := Get(request, "destination");
    if Truthy(dest) then Some(dest)
    else
      var text := Get(request, "text");
      if !Truthy(text) then Some(Str(""))
      else if text.Str? then Some(Str(BeforeColon(text.s)))
      else None
  }

  /** The validity test: action `msg` and a truthy text, time and user; the destination is not required. */
  predicate Acceptable(request: Message) {
    Get(request, ACTION) == Str(NAME) && Truthy(Get(request, "text")) &&
    Truthy(Get(request, TIME)) && Truthy(Get(request, "user"))
  }

  /**
   * `validate`: on a missing destination it assigns one on the request (an
   * instance attribute, which shadows the fields), then reports the test.
   * None when the text split raises.
   */
  function Validate(request: Message): (r: Option<(Message, bool)>)
    ensures r.Some? <==> Destination(request).Some?
    ensures r.Some? ==> r.value.1 == Acceptable(request)
    ensures r.Some? ==> Get(r.value.0, "destination") == Destination(request).value
    ensures r.Some? ==> forall k :: k != "destination" ==> Get(r.value.0, k) == Get(request, k)
    ensures r.Some? && Truthy(Get(request, "destination")) ==> r.value.0 == request
  {
    match Destination(request)
    case None => None
    case Some(d) =>
      var updated := if Truthy(Get(request, "destination")) then request
        else request.(attrs := request.attrs["destination" := d]);
      Some((updated, Acceptable(request)))
  }

  /** `execute`: the request itself (with its destination filled in) when valid, else a 400 error response. */
  function Execute(request: Message, stamp: string -> string): (r: Option<Message>)
    ensures r.Some? <==> Destination(request).Some?
    ensures r.Some? && Acceptable(request) ==> r.value == Validate(request).value.0
    ensures r.Some? && !Acceptable(request) ==>
      Get(r.value, RESPONSE) == Int(400) && Get(r.value, ERROR_FIELD) == Str(NOT_VALID)
  {
    match Validate(request)
    case None => None
    case Some(v) => if v.1 then Some(v.0) else Some(ErrorResp(NOT_VALID, map[], stamp))
  }

  /** A destination chosen from the text is its first segment, and a text with no colon is taken whole. */
  lemma {:induction false} BeforeColonWhole(s: string)
    requires ':' !in s
    ensures BeforeColon(s) == s
  {
    if s != [] {
      BeforeColonWhole(s[1..]);
    }
  }

  /** Validating twice changes nothing more: the second pass keeps the destination the first one set. */
  lemma ValidateIdempotent(request: Message)
    requires Validate(request).Some?
    ensures Validate(Validate(request).value.0) == Validate(request)
  {
    var d := Destination(request).value;
    var updated := Validate(request).value.0;
    if !Truthy(Get(request, "destination")) {
      assert Get(updated, "text") == Get(request, "text");
      assert Destination(updated) == Some(d);
      assert updated.attrs["destination" := d] == updated.attrs;
      assert Acceptable(updated) == Acceptable(request);
    }
  }
}
