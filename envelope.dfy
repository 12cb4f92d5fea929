/**
 * The JIM message envelope of the talkative snapshots (client/jim_mes/jim.py):
 * a map of protocol fields whose absent fields read as `None`, stamped with
 * the current time on every construction, serialized by JSON plus a line
 * delimiter.  JSON and the clock are parameters: `Codec` and `stamp`.
 */
module Envelope {
  import opened Wrappers
  import opened Bytes
  import Utf8

  /** The Python values that travel in a message. `Ref` is any other object (a socket, say). */
  datatype Value =
    | Null
    | Bool(b: bool)
    | Int(i: int)
    | Str(s: string)
    | Bin(data: seq<byte>)
    | List(items: seq<Value>)
    | Obj(fields: map<string, Value>)
    | Ref(id: nat)

  type Fields = map<string, Value>

  /** Python truthiness. */
  predicate Truthy(v: Value) {
    match v
    case Null => false
    case Bool(b) => b
    case Int(i) => i != 0
    case Str(s) => s != ""
    case Bin(d) => d != []
    case List(xs) => xs != []
    case Obj(f) => f != map[]
    case Ref(_) => true
  }

  /** Values Python can hash, and so use as a dictionary key: lists and dicts cannot. */
  predicate Hashable(v: Value) {
    !v.List? && !v.Obj?
  }

  /** Values `json.dumps` accepts: no bytes and no foreign objects. */
  predicate JsonValue(v: Value)
    decreases v
  {
    match v
    case Bin(_) => false
    case Ref(_) => false
    case List(xs) => forall i :: 0 <= i < |xs| ==> JsonValue(xs[i])
    case Obj(f) => forall k :: k in f ==> JsonValue(f[k])
    case _ => true
  }

  predicate Serializable(f: Fields) {
    forall k :: k in f ==> JsonValue(f[k])
  }

  /** Field names (talkative_server/config/settings.py). */
  const TIME := "time"
  const ACTION := "action"
  const RESPONSE := "response"
  const SENDER := "from"
  const DESTINATION := "to"
  const MESSAGE_TEXT := "mess_text"
  const USER := "user"
  const ERROR_FIELD := "error"
  const DATA := "bin"
  const ACCOUNT_NAME := "account_name"
  const PUBLIC_KEY := "pubkey"
  const LIST_INFO := "data_list"
  /** Action names. */
  const PRESENCE := "presence"
  const EXIT := "exit"
  const ERROR := "error"
  const AUTH := "auth"
  const MESSAGE := "message"

  /** The keyword arguments the constructor pops before filling the fields. */
  const DATE_FORMAT_KEY := "date_format"
  const DELIMITER_KEY := "delimiter"
  const DEFAULT_DATE_FORMAT := "%Y-%m-%d %H:%M:%S"
  const CRLF := "\r\n"

  /** The four fields `is_valid` requires, in the order it checks them. */
  const REQUIRED: seq<string> := [ACTION, SENDER, DESTINATION, MESSAGE_TEXT]

  /**
   * A message: the field map, the instance attributes assigned after
   * construction (`mes.client = sock`), and the delimiter written after the
   * JSON text.
   */
  datatype Message = Message(raw: Fields, attrs: Fields, delimiter: string)

  /**
   * JSON as an abstract pair: `dumps` renders a field map as text, `encode`
   * turns text into UTF-8 bytes, `loads` parses bytes back (None when
   * `json.loads` raises or yields something other than an object).
   */
  datatype Codec = Codec(dumps: Fields -> string, encode: string -> seq<byte>, loads: seq<byte> -> Option<Fields>)

  /**
   * What JSON and `str.encode()` guarantee: serializable fields written with
   * the default delimiter read back unchanged, and every text encodes to
   * well-formed UTF-8 (`Utf8.Encode` is one such encoder).
   */
  ghost predicate RoundTrips(c: Codec) {
    (forall f :: Serializable(f) ==> c.loads(c.encode(c.dumps(f) + CRLF)) == Some(f)) &&
    (forall t :: Utf8.Valid(c.encode(t)))
  }

  /** Whether a keyword argument the constructor pops has the type it needs (a string). */
  predicate StrOrAbsent(kwargs: Fields, key: string) {
    key in kwargs ==> kwargs[key].Str?
  }

  /** The date format used for the stamp: the `date_format` keyword or the default. */
  function DateFormat(kwargs: Fields): string
    requires StrOrAbsent(kwargs, DATE_FORMAT_KEY)
  {
    if DATE_FORMAT_KEY in kwargs then kwargs[DATE_FORMAT_KEY].s else DEFAULT_DATE_FORMAT
  }

  /**
   * `Message(**kwargs)`: the keywords become the fields, except `date_format`
   * and `delimiter`, which are popped; `time` is always overwritten with the
   * current time, `stamp(format)`.
   */
  function New(kwargs: Fields, stamp: string -> string): (m: Message)
    requires StrOrAbsent(kwargs, DATE_FORMAT_KEY) && StrOrAbsent(kwargs, DELIMITER_KEY)
    ensures TIME in m.raw && m.raw[TIME] == Str(stamp(DateFormat(kwargs)))
    ensures forall k :: k != TIME && k != DATE_FORMAT_KEY && k != DELIMITER_KEY ==>
      (k in m.raw <==> k in kwargs) && (k in kwargs ==> m.raw[k] == kwargs[k])
    ensures DATE_FORMAT_KEY !in m.raw && DELIMITER_KEY !in m.raw
    ensures m.attrs == map[]
    ensures m.delimiter == if DELIMITER_KEY in kwargs then kwargs[DELIMITER_KEY].s else CRLF
  {
    var delimiter := if DELIMITER_KEY in kwargs then kwargs[DELIMITER_KEY].s else CRLF;
    var fields := kwargs - {DATE_FORMAT_KEY, DELIMITER_KEY};
    Message(fields[TIME := Str(stamp(DateFormat(kwargs)))], map[], delimiter)
  }

  /**
   * `Message(data)`: non-empty data is parsed by the codec (None when that
   * raises); empty data is falsy and gives a message with only a time stamp.
   */
  function Load(data: seq<byte>, c: Codec, stamp: string -> string): (r: Option<Message>)
    ensures |data| == 0 ==> r == Some(New(map[], stamp))
    ensures |data| > 0 ==> (c.loads(data).None? <==> r.None?)
    ensures r.Some? ==> TIME in r.value.raw && r.value.raw[TIME] == Str(stamp(DEFAULT_DATE_FORMAT)) && r.value.attrs == map[]
  {
    if |data| == 0 then Some(New(map[], stamp))
    else
      match c.loads(data)
      case None => None
      case Some(f) => Some(Message(f[TIME := Str(stamp(DEFAULT_DATE_FORMAT))], map[], CRLF))
  }

  /** `bytes(msg)`: the JSON text of the fields followed by the delimiter. */
  function Encode(m: Message, c: Codec): seq<byte> {
    c.encode(c.dumps(m.raw) + m.delimiter)
  }

  /**
   * Encode/decode round trip: decoding an encoded message gives back every
   * field except `time`, which the decoder stamps anew; instance attributes
   * are not serialized.
   */
  lemma LoadEncode(m: Message, c: Codec, stamp: string -> string)
    requires RoundTrips(c) && Serializable(m.raw) && m.delimiter == CRLF
    requires |Encode(m, c)| > 0
    ensures Utf8.Valid(Encode(m, c))
    ensures Load(Encode(m, c), c, stamp).Some?
    ensures var d := Load(Encode(m, c), c, stamp).value;
      d.attrs == map[] && d.raw[TIME] == Str(stamp(DEFAULT_DATE_FORMAT)) &&
      forall k :: k != TIME ==> (k in d.raw <==> k in m.raw) && (k in m.raw ==> d.raw[k] == m.raw[k])
  {
    assert c.loads(c.encode(c.dumps(m.raw) + CRLF)) == Some(m.raw);
  }

  /**
   * `getattr(msg, name)`: an instance attribute wins; otherwise the field,
   * and `None` (not an AttributeError) for an absent field.
   */
  function Get(m: Message, name: string): (v: Value)
    ensures name in m.attrs ==> v == m.attrs[name]
    ensures name !in m.attrs && name in m.raw ==> v == m.raw[name]
    ensures name !in m.attrs && name !in m.raw ==> v == Null
  {
    if name in m.attrs then m.attrs[name]
    else if name in m.raw then m.raw[name]
    else Null
  }

  /** A message that went through the constructor always answers `time`. */
  lemma NewHasTime(kwargs: Fields, stamp: string -> string, name: string)
    requires StrOrAbsent(kwargs, DATE_FORMAT_KEY) && StrOrAbsent(kwargs, DELIMITER_KEY)
    ensures Get(New(kwargs, stamp), TIME) == Str(stamp(DateFormat(kwargs)))
    ensures name != TIME && name != DATE_FORMAT_KEY && name != DELIMITER_KEY && name !in kwargs ==>
      Get(New(kwargs, stamp), name) == Null
  {
  }

  /** `settings.USER_NAME` is "set" when it is a non-empty string. */
  predicate UserNameSet(userName: Option<string>) {
    userName.Some? && userName.value != ""
  }

  /**
   * Reference meaning of `is_valid`: the four required fields are present
   * (as keys, whatever their value), and when a user name is configured the
   * message is addressed to it.
   */
  predicate Valid(m: Message, userName: Option<string>) {
    (forall i :: 0 <= i < |REQUIRED| ==> REQUIRED[i] in m.raw) &&
    (UserNameSet(userName) ==> Get(m, DESTINATION) == Str(userName.value))
  }

  /** `is_valid`: the flag loop over the required fields, then the addressee check. */
  method IsValid(m: Message, userName: Option<string>) returns (valid: bool)
    ensures valid == Valid(m, userName)
  {
    valid := true;
    var i := 0;
    while i < |REQUIRED|
      invariant 0 <= i <= |REQUIRED|
      invariant valid <==> forall j :: 0 <= j < i ==> REQUIRED[j] in m.raw
    {
      if REQUIRED[i] !in m.raw {
        valid := false;
        i := i + 1;
        break;
      }
      i := i + 1;
    }
    if UserNameSet(userName) && valid && Get(m, DESTINATION) != Str(userName.value) {
      valid := false;
    }
  }

  /**
   * `user_account_name`: the `user` field when the key is present (even when
   * it holds None), else the `to` field, else None.
   */
  function UserAccountName(m: Message): (v: Value)
    ensures USER in m.raw ==> v == m.raw[USER]
    ensures USER !in m.raw ==> v == (if DESTINATION in m.raw then m.raw[DESTINATION] else Null)
  {
    if USER in m.raw then m.raw[USER]
    else if DESTINATION in m.raw then m.raw[DESTINATION]
    else Null
  }

  /** Whether a value equals the Python int `n`. */
  predicate IsInt(v: Value, n: int) {
    v == Int(n)
  }

  /**
   * `str(msg)`: for response 400 and 500 an error header followed by the
   * error text; otherwise the message text when it is truthy, else the whole
   * field map. `show` and `showFields` are Python's `str` on values and dicts.
   */
  function Render(m: Message, show: Value -> string, showFields: Fields -> string): (r: string)
    ensures RESPONSE in m.raw && IsInt(m.raw[RESPONSE], 400) ==>
      r == "client error:\n" + show(Get(m, ERROR_FIELD))
    ensures RESPONSE in m.raw && IsInt(m.raw[RESPONSE], 500) ==>
      r == "server error:\n" + show(Get(m, ERROR_FIELD))
    ensures !(RESPONSE in m.raw && (IsInt(m.raw[RESPONSE], 400) || IsInt(m.raw[RESPONSE], 500))) ==>
      r == if Truthy(Get(m, MESSAGE_TEXT)) then show(Get(m, MESSAGE_TEXT)) else showFields(m.raw)
  {
    var resp := if RESPONSE in m.raw then m.raw[RESPONSE] else Null;
    if resp == Int(400) then "client error:\n" + show(Get(m, ERROR_FIELD))
    else if resp == Int(500) then "server error:\n" + show(Get(m, ERROR_FIELD))
    else if Truthy(Get(m, MESSAGE_TEXT)) then show(Get(m, MESSAGE_TEXT))
    else showFields(m.raw)
  }

  /** Keyword arguments a named constructor may be given next to its own. */
  predicate ExtraKwargs(kwargs: Fields, own: set<string>) {
    (forall k :: k in own ==> k !in kwargs) &&
    StrOrAbsent(kwargs, DATE_FORMAT_KEY) && StrOrAbsent(kwargs, DELIMITER_KEY)
  }

  /** `Message.success(response=200, **kwargs)`. */
  function Success(response: Value, kwargs: Fields, stamp: string -> string): (m: Message)
    requires ExtraKwargs(kwargs, {RESPONSE})
    ensures Get(m, RESPONSE) == response
    ensures forall k :: k in kwargs && k != TIME && k != DATE_FORMAT_KEY && k != DELIMITER_KEY ==> Get(m, k) == kwargs[k]
  {
    New(kwargs[RESPONSE := response], stamp)
  }

  /** `Message.error_resp(text, **kwargs)`: response 400 carrying the error text. */
  function ErrorResp(text: string, kwargs: Fields, stamp: string -> string): (m: Message)
    requires ExtraKwargs(kwargs, {RESPONSE, ERROR_FIELD})
    ensures Get(m, RESPONSE) == Int(400) && Get(m, ERROR_FIELD) == Str(text)
    ensures forall k :: k in kwargs && k != TIME && k != DATE_FORMAT_KEY && k != DELIMITER_KEY ==> Get(m, k) == kwargs[k]
  {
    New(kwargs[RESPONSE := Int(400)][ERROR_FIELD := Str(text)], stamp)
  }

  /** `Message.error_request(text, **kwargs)`: action `error` with `msg == text`. */
  function ErrorRequest(text: string, kwargs: Fields, stamp: string -> string): (m: Message)
    requires ExtraKwargs(kwargs, {ACTION, "msg"})
    ensures Get(m, ACTION) == Str(ERROR) && Get(m, "msg") == Str(text)
  {
    New(kwargs[ACTION := Str(ERROR)]["msg" := Str(text)], stamp)
  }

  /** `settings.USER_NAME` as a Python value. */
  function UserNameValue(userName: Option<string>): Value {
    if userName.Some? then Str(userName.value) else Null
  }

  /** `Message.presence(type_, user, **kwargs)`: the user falls back to the configured name when falsy. */
  function Presence(typ: string, user: Value, kwargs: Fields, userName: Option<string>, stamp: string -> string): (m: Message)
    requires ExtraKwargs(kwargs, {ACTION, "type", USER})
    ensures Get(m, ACTION) == Str(PRESENCE) && Get(m, "type") == Str(typ)
    ensures Get(m, USER) == if Truthy(user) then user else UserNameValue(userName)
    ensures UserAccountName(m) == Get(m, USER)
  {
    var u := if Truthy(user) then user else UserNameValue(userName);
    New(kwargs[ACTION := Str(PRESENCE)]["type" := Str(typ)][USER := u], stamp)
  }

  /** `Message.exit_request(user, **kwargs)`. */
  function ExitRequest(user: Value, kwargs: Fields, userName: Option<string>, stamp: string -> string): (m: Message)
    requires ExtraKwargs(kwargs, {ACTION, USER})
    ensures Get(m, ACTION) == Str(EXIT)
    ensures Get(m, USER) == if Truthy(user) then user else UserNameValue(userName)
    ensures UserAccountName(m) == Get(m, USER)
  {
    var u := if Truthy(user) then user else UserNameValue(userName);
    New(kwargs[ACTION := Str(EXIT)][USER := u], stamp)
  }

  /** The default `presence()` and `success()` on a client with a configured name. */
  lemma DefaultConstructors(userName: string, stamp: string -> string)
    requires userName != ""
    ensures var p := Presence("status", Null, map[], Some(userName), stamp);
      Get(p, "type") == Str("status") && UserAccountName(p) == Str(userName)
    ensures Get(Success(Int(200), map[], stamp), RESPONSE) == Int(200)
  {
  }

  /** A presence message is never valid: it lacks the `to`, `from` and `mess_text` fields. */
  lemma PresenceNotValid(typ: string, user: Value, userName: Option<string>, stamp: string -> string)
    ensures !Valid(Presence(typ, user, map[], userName, stamp), userName)
  {
    var p := Presence(typ, user, map[], userName, stamp);
    assert REQUIRED[1] !in p.raw;
  }
}
