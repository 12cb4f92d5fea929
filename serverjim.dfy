/**
 * The envelope of the first server snapshot (server/jim.py). Same field map
 * as the later one, but the user name is nested (`user.account_name`),
 * `str()` reads the `text` field, and the date format and delimiter come
 * from the settings instead of keyword arguments.
 */
module ServerJim {
  import opened Wrappers
  import opened Bytes
  import opened Envelope

  /** `Message(**kwargs)`: the keywords become the fields and `time` is overwritten. */
  function New(kwargs: Fields, now: string, delimiter: string): (m: Message)
    ensures Get(m, TIME) == Str(now)
    ensures forall k :: k != TIME ==> (k in m.raw <==> k in kwargs) && (k in kwargs ==> m.raw[k] == kwargs[k])
    ensures m.attrs == map[]
  {
    Message(kwargs[TIME := Str(now)], map[], delimiter)
  }

  /** `Message(data)`: parsed by the codec, or only a time stamp for empty data; None when parsing raises. */
  function Load(data: seq<byte>, c: Codec, now: string, delimiter: string): (r: Option<Message>)
    ensures |data| == 0 ==> r == Some(New(map[], now, delimiter))
    ensures |data| > 0 ==> (r.Some? <==> c.loads(data).Some?)
    ensures r.Some? ==> Get(r.value, TIME) == Str(now)
  {
    if |data| == 0 then Some(New(map[], now, delimiter))
    else
      match c.loads(data)
      case None => None
      case Some(f) => Some(New(f, now, delimiter))
  }

  /**
   * `user_account_name`: `raw['user']['account_name']`. A missing `user` key
   * raises KeyError and a `user` that is not a dict raises TypeError; the
   * `except ValueError` never applies, so every failure propagates (None here).
   */
  function UserAccountName(m: Message): (r: Option<Value>)
    ensures r.Some? <==> USER in m.raw && m.raw[USER].Obj? && ACCOUNT_NAME in m.raw[USER].fields
    ensures r.Some? ==> r.value == m.raw[USER].fields[ACCOUNT_NAME]
  {
    if USER in m.raw && m.raw[USER].Obj? && ACCOUNT_NAME in m.raw[USER].fields
    then Some(m.raw[USER].fields[ACCOUNT_NAME])
    else None
  }

  /** `str(msg)`: the `text` field (KeyError, here None, when absent). */
  function Render(m: Message, show: Value -> string): (r: Option<string>)
    ensures r.Some? <==> "text" in m.raw
    ensures r.Some? ==> r.value == show(m.raw["text"])
  {
    if "text" in m.raw then Some(show(m.raw["text"])) else None
  }

  /** `Message.success(response=200, **kwargs)`. */
  function Success(response: Value, kwargs: Fields, now: string, delimiter: string): (m: Message)
    requires RESPONSE !in kwargs
    ensures Get(m, RESPONSE) == response && Get(m, TIME) == Str(now)
    ensures forall k :: k in kwargs && k != TIME ==> Get(m, k) == kwargs[k]
  {
    New(kwargs[RESPONSE := response], now, delimiter)
  }

  /** `Message.error(text, **kwargs)`: response 400 with the error text. */
  function Error(text: string, kwargs: Fields, now: string, delimiter: string): (m: Message)
    requires RESPONSE !in kwargs && ERROR_FIELD !in kwargs
    ensures Get(m, RESPONSE) == Int(400) && Get(m, ERROR_FIELD) == Str(text)
    ensures forall k :: k in kwargs && k != TIME ==> Get(m, k) == kwargs[k]
  {
    New(kwargs[RESPONSE := Int(400)][ERROR_FIELD := Str(text)], now, delimiter)
  }

  /** `Message.error_request(text, **kwargs)`: action `error` with `msg == text`. */
  function ErrorRequest(text: string, kwargs: Fields, now: string, delimiter: string): (m: Message)
    requires ACTION !in kwargs && "msg" !in kwargs
    ensures Get(m, ACTION) == Str("error") && Get(m, "msg") == Str(text)
  {
    New(kwargs[ACTION := Str("error")]["msg" := Str(text)], now, delimiter)
  }

  /** `Message.presence(type_='status', user=None)`: no fallback to a configured name here. */
  function Presence(typ: string, user: Value, now: string, delimiter: string): (m: Message)
    ensures Get(m, ACTION) == Str(PRESENCE) && Get(m, "type") == Str(typ) && Get(m, USER) == user
    ensures m.raw.Keys == {ACTION, "type", USER, TIME}
  {
    New(map[ACTION := Str(PRESENCE), "type" := Str(typ), USER := user], now, delimiter)
  }

  /** A default presence has no resolvable account name: its `user` is None, so the lookup raises. */
  lemma DefaultPresenceHasNoAccount(now: string, delimiter: string)
    ensures UserAccountName(Presence("status", Null, now, delimiter)).None?
    ensures Render(Presence("status", Null, now, delimiter), (v: Value) => "").None?
  {
  }

  /** A presence built with a user dict answers that dict's account name. */
  lemma PresenceAccountName(name: string, now: string, delimiter: string)
    ensures UserAccountName(Presence("status", Obj(map[ACCOUNT_NAME := Str(name)]), now, delimiter)) == Some(Str(name))
  {
  }
}
