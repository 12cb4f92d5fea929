# A verified model of a JIM chat system

This project models the core of a small chat system in Dafny. Its clients and servers talk JIM ("JSON instant messaging"): each message is a JSON object of named fields (`action`, `response`, `from`, `to`, `user`, `account_name`, ...), stamped with its creation `time` and sent over TCP behind a 4-byte big-endian length header.

The repository holds five historical snapshots of the system. The model follows each one file by file:

- `server/` and `client/`: the first blocking socket server and its client. Covered here are the server's observer table, client list and message queue; the JIM message classes; the command tables; the echo, message and contact commands; the port descriptor; the file converter; and the client's SQLite store.
- `talkative_server/`: a threaded select-based server (`core.py`) and an asyncio server (`async_core.py`). These share the `login_required` guards, a SQLite store and a MongoDB store, and the contact commands.
- `talkative_client/`: the blocking client with its handshake loop (`core.py`) and the asyncio client (`async_core.py`).
- `talkative_phone/`: the asyncio client of the phone app (`async_core.py`) and its local store of users, contacts and chats (`db.py`).

Objects whose fields the source updates become classes. Their methods state the whole new state and are proved against specification functions over sequences and maps:

- servers and transports;
- routers and command tables;
- stores;
- stream readers.

JSON, base64, HMAC, PBKDF2, RSA, the wall clock, random nonces and the network are parameters: function values, or an environment class with an output buffer per connection. Python exceptions are explicit outcomes (`raised`, `Raised`, `None`), because the source relies on them:

- asyncio closes a connection when `data_received` raises;
- the stores raise on malformed names.

Each module starts with a comment naming the source file it models. The one exception is the shared helper modules (`Wrappers`, `Lists`, `Text`, `Bytes`, `Utf8`, `SqlRows`).

## Model

| member | source | states |
|---|---|---|
| Envelope.New | client/jim_mes/jim.py:14-22 | the keyword arguments become the fields, except `date_format` and `delimiter`, which are popped; `time` is always set to the stamp in the chosen format; the delimiter defaults to CRLF |
| Envelope.Load | client/jim_mes/jim.py:14-22 | non-empty data is parsed by the codec and fails exactly when the codec does; empty data gives a message holding only `time`; every loaded message is stamped |
| Envelope.Encode | client/jim_mes/jim.py:25-26 | the codec's text of the fields, then the delimiter, as bytes |
| Envelope.LoadEncode | client/jim_mes/jim.py:18-26 | the bytes of a message are well-formed UTF-8, as `str.encode()` makes them, and decoding them gives back every field except `time`, which is stamped anew |
| Utf8.EncodeChar | client/jim_mes/jim.py:25-26 | the UTF-8 bytes of one character are one to four bytes forming exactly one well-formed sequence |
| Utf8.Encode | client/jim_mes/jim.py:25-26 | `str.encode()` yields well-formed UTF-8, at least one and at most four bytes per character |
| Utf8.AppendValid | server/core.py:154 | well-formed UTF-8 strings concatenate to well-formed UTF-8, so the decode of a buffer of whole messages succeeds |
| Utf8.AsciiOnly | server/core.py:154 | bytes below 80 hex always decode |
| Utf8.HighBytesInvalid | server/core.py:154 | the strict decoder rejects a lone byte FF, a truncated lead C3, a stray continuation 80 and an encoded surrogate ED A0 80, and accepts C3 A9 |
| Envelope.Get | client/jim_mes/jim.py:37-40 | an instance attribute wins, then the field, and an absent field reads as None rather than raising |
| Envelope.NewHasTime | client/jim_mes/jim.py:14-39 | a constructed message always answers `time`, and answers None for any name it was not given |
| Envelope.IsValid | client/jim_mes/jim.py:42-50 | the flag loop returns exactly the reference predicate: all four required fields present, and addressed to the configured user when one is set |
| Envelope.UserAccountName | client/jim_mes/jim.py:52-58 | the `user` field when that key is present (even holding None), else the `to` field, else None |
| Envelope.Render | client/jim_mes/jim.py:28-35 | a 400 or 500 response renders as the client or server error header plus the error text; anything else as the message text when truthy, else the field map |
| Envelope.Success | client/jim_mes/jim.py:60-62 | the message carries the given response code and every extra keyword argument |
| Envelope.ErrorResp | client/jim_mes/jim.py:64-66 | response 400 with the error text, plus the extra keyword arguments |
| Envelope.ErrorRequest | client/jim_mes/jim.py:68-70 | action `error` with `msg` holding the text |
| Envelope.Presence | client/jim_mes/jim.py:72-74 | action `presence` with the given type; the user falls back to the configured name when falsy, and is the message's account name |
| Envelope.ExitRequest | client/jim_mes/jim.py:76-78 | action `exit`; the user falls back to the configured name when falsy, and is the message's account name |
| Envelope.DefaultConstructors | client/jim_mes/jim.py:60-74 | the default presence has type `status` and names the configured user; the default success answers 200 |
| Envelope.PresenceNotValid | client/jim_mes/jim.py:42-74 | a presence message never passes `is_valid`, since it lacks the `to`, `from` and `mess_text` fields |
| ServerJim.New | server/jim.py:14-20 | the keyword arguments become the fields, and `time` is set to the current stamp whatever was given |
| ServerJim.Load | server/jim.py:14-20 | non-empty data is parsed by the codec and fails exactly when it does; empty data gives a message holding only `time`; every result is stamped |
| ServerJim.UserAccountName | server/jim.py:33-39 | defined exactly when `user` is present and is a dict with `account_name`, and then that name; every other case raises, since only ValueError is caught |
| ServerJim.Render | server/jim.py:25-26 | defined exactly when the `text` field is present, and then its string form |
| ServerJim.Success | server/jim.py:41-43 | the given response code, the current stamp and every extra keyword argument |
| ServerJim.Error | server/jim.py:45-47 | response 400 with the error text, plus the extra keyword arguments |
| ServerJim.ErrorRequest | server/jim.py:49-51 | action `error` with `msg` holding the text |
| ServerJim.Presence | server/jim.py:53-55 | action `presence`, the given type and user and nothing else but `time`; no fallback to a configured name |
| ServerJim.DefaultPresenceHasNoAccount | server/jim.py:33-55 | the default presence has no account name (its `user` is None) and no printable text |
| ServerJim.PresenceAccountName | server/jim.py:33-55 | a presence built with a user dict answers that dict's account name |
| Bytes.Pack32 | talkative_server/talkative_server/core.py:217 | `struct.pack('>I', n)`: exactly four bytes |
| Bytes.Unpack32 | talkative_server/talkative_server/core.py:173 | `struct.unpack('>I', b)`: a value below 2^32 |
| Bytes.UnpackPack | talkative_server/talkative_server/core.py:173-217 | unpacking a packed length gives the length back |
| Bytes.PackUnpack | talkative_server/talkative_server/core.py:173-217 | packing an unpacked header gives the same four bytes back |
| Bytes.Pack32Injective | talkative_server/talkative_server/core.py:217 | different lengths get different headers |
| Bytes.Unframe | talkative_server/talkative_server/core.py:167-203 | a payload and a rest that together with the header make up the stream |
| Bytes.UnframeFrame | talkative_server/talkative_server/core.py:167-221 | reading a written frame back gives the payload and leaves what followed |
| Bytes.FrameUnframe | talkative_server/talkative_server/core.py:167-221 | every stream that yields a frame is that frame followed by the rest |
| Lists.Attached | talkative_server/talkative_server/async_core.py:114-119 | the observer joins the end of the event's list, and every other event keeps its list |
| Lists.Detached | talkative_server/talkative_server/async_core.py:121-125 | the event's list loses the first occurrence of the observer, and every other event keeps its list; ValueError exactly when the observer is not there |
| Lists.DetachUndoesAttach | talkative_server/talkative_server/async_core.py:114-125 | detaching a freshly attached observer restores every event's list |
| Lists.Reversed | client/db.py:268 | the elements in the opposite order: position `i` holds the element `i` places from the end |
| Lists.LimitReversed | client/db.py:268 | the first `limit` elements back to front are the last ones, counted from the end |
| Text.Lower | talkative_phone/db.py:339 | `str.lower` on a user name: the result has the name's length, and each character is the one at that position with an ASCII capital folded to its small letter and every other character kept |
| Text.LowerIdempotent | talkative_server/talkative_server/db_mongo.py:149 | lower-casing an already lower-cased name changes nothing |
| EchoCommand.Execute | server/echo/commands.py:13-16 | without a parameter, a `request` prompt addressed back to `echo`; with one, a `msg` carrying the parameter as its text; nothing else in the reply |
| EchoCommand.ReplyDependsOnlyOnParam | server/echo/commands.py:13-16 | two requests with the same parameter get the same reply |
| MsgCommand.BeforeColon | server/message/commands.py:21 | the text before the first colon: a colon-free prefix of the text, cut at a colon when shorter |
| MsgCommand.Destination | server/message/commands.py:19-22 | a truthy destination is kept; otherwise the text before the first colon, or the empty string without a text; a truthy non-string text raises |
| MsgCommand.Validate | server/message/commands.py:18-30 | the destination is filled in on the request and nothing else changes on it; the verdict is action `msg` with truthy text, time and user |
| MsgCommand.Execute | server/message/commands.py:13-16 | a valid request comes back with its destination filled in; an invalid one gets a 400 `request is not valid` |
| MsgCommand.BeforeColonWhole | server/message/commands.py:21 | a text without a colon is taken whole as the destination |
| MsgCommand.ValidateIdempotent | server/message/commands.py:18-30 | a second validation changes nothing more than the first |
| ServerCommands.Execute | server/commands.py:52-55 | `Presence` answers a 200 success; `echo` and `msg` give exactly what those commands give, `msg` raising exactly when its validation does |
| ServerCommands.RunKey | server/commands.py:19-22 | for a `msg` whose text starts with `!`, the text after it; for a `msg` with a falsy text, and for any other action, the action itself |
| ServerCommands.Dispatch | server/commands.py:16-26 | a list or dict key raises TypeError, as no key at all does; a hashable key with no command gives the falsy answer; a command that returns nothing counts as `True`; a reply is passed on; an exception propagates |
| ServerCommands.RegKey | server/commands.py:29 | the name given when truthy, else the class's own `name` |
| ServerCommands.Comander.constructor | server/commands.py:12-14 | the table starts empty |
| ServerCommands.Comander.RegCmd | server/commands.py:28-32 | a raise and no change exactly when the key is a list or dict (TypeError) or is taken (ValueError); otherwise the command is stored under it |
| ServerCommands.Comander.UnregCmd | server/commands.py:34-36 | TypeError and no change exactly for a list or dict name; otherwise the name is removed, and an unknown name is ignored |
| ServerCommands.Comander.Run | server/commands.py:16-26 | the answer is the dispatch of the request on the current table, a list or dict key raising |
| ServerCommands.MainCommands | server/commands.py:58 | after the command modules register, the table holds exactly `presence`, `echo` and `msg` |
| ServerCommands.RegThenUnreg | server/commands.py:28-36 | registering a fresh name and unregistering it gives the table back |
| ServerCommands.PresenceAnswers200 | server/commands.py:52-58 | a status presence is answered with 200 |
| ServerCommands.BangEchoPrompts | server/commands.py:19-24 | the chat text `!echo` reaches the echo command, which prompts for the text |
| ServerCommands.EchoRepeats | server/commands.py:22-24 | an `echo` action with a parameter is echoed back as a chat message |
| ClientCommands.FirstMatch | client/commands.py:23-27 | the index of the first command with that name and no earlier one; None exactly when no command has the name |
| ClientCommands.Dropped | client/commands.py:34 | the commands of other names, in their order and with their repeats (the filter of the list), and none of that name |
| ClientCommands.Comander.constructor | client/commands.py:17-19 | the command list starts empty |
| ClientCommands.Comander.Run | client/commands.py:21-28 | returns True exactly when some command has the name, and then exactly the first such command is executed; nothing runs otherwise |
| ClientCommands.Comander.RegCmd | client/commands.py:30-31 | the command is appended after the earlier ones |
| ClientCommands.Comander.UnregCmd | client/commands.py:33-34 | the list becomes the commands of other names, in order with their repeats; nothing runs |
| ClientCommands.DroppedAppend | client/commands.py:34 | dropping a name from two lists joined is dropping it from each, in order |
| ClientCommands.RegKeepsFirst | client/commands.py:21-31 | registering a duplicate name never shadows the earlier command |
| ClientCommands.UnregThenRunFindsNothing | client/commands.py:21-34 | after unregistering a name, running it finds nothing |
| ClientCommands.UnregAbsent | client/commands.py:33-34 | unregistering an unknown name changes nothing |
| Descriptors.PortDescr.constructor | server/descriptors.py:15-17 | the port starts at the value given |
| Descriptors.PortDescr.Set | server/descriptors.py:19-23 | ValueError exactly for a value that is not an int in 1024..65534, and then the port is unchanged; otherwise the value is stored |
| Descriptors.PortDescr.Get | server/descriptors.py:25-26 | the stored port |
| Descriptors.SetKeepsRange | server/descriptors.py:15-26 | a port that starts in range stays in range whatever is assigned |
| Convert.PrototypeDispatcher.constructor | client/jim_mes/convert.py:22-23 | the registry starts empty |
| Convert.PrototypeDispatcher.RegisterObject | client/jim_mes/convert.py:29-31 | the name now maps to the object, overwriting any earlier one |
| Convert.PrototypeDispatcher.UnregisterObject | client/jim_mes/convert.py:33-35 | KeyError exactly when the name is not registered; afterwards the name is gone and nothing else changed |
| Convert.ImportDispatcher | client/jim_mes/convert.py:168-170 | after import the registry holds exactly csv, json and yaml |
| Convert.SuffixType | client/jim_mes/convert.py:76-77 | the derived type never contains a dot or a slash |
| Convert.SuffixOfFileName | client/jim_mes/convert.py:76-77 | the type derived from `dir/stem.ext` is `ext`, also with a trailing `/` or `/.`, which pathlib drops |
| Convert.NoSuffix | client/jim_mes/convert.py:76-77 | a name without a dot, with its only dot first (`.json`) or with its last dot last (`data.`) gives the empty type |
| Convert.NoNameNoSuffix | client/jim_mes/convert.py:76-77 | a path without a name gives the empty type |
| Convert.BaseNameOf | client/jim_mes/convert.py:76 | the name of `dir/name` is `name` for any component other than empty or `.` |
| Convert.BaseNameTrailing | client/jim_mes/convert.py:76 | a trailing `/` or `/.` leaves the name unchanged |
| Convert.SlashesOnly | client/jim_mes/convert.py:76 | the empty path and a run of slashes have no name |
| Convert.RFindLast | client/jim_mes/convert.py:76-77 | the last-dot search finds a dot followed by dot-free text |
| Convert.RFind | client/jim_mes/convert.py:76-77 | the last index of the character, -1 when there is none |
| Convert.BaseName | client/jim_mes/convert.py:76-77 | pathlib's name: the last component once empty and `.` components are dropped; it holds no slash and is never `.` |
| Convert.Converter.constructor | client/jim_mes/convert.py:42-46 | type, file name and logger are taken from the arguments, and no class is resolved yet |
| Convert.Converter.DefineConvert | client/jim_mes/convert.py:74-80 | a set file name decides the type; a non-empty type then resolves the registered class (None when unregistered); an empty type keeps the previous class |
| Convert.Converter.Write | client/jim_mes/convert.py:59-67 | an explicit type replaces the type and clears the file name before resolution; it raises exactly when the resolved class is missing or logging fails, else the file name becomes the written file |
| Convert.Converter.Read | client/jim_mes/convert.py:48-52 | a given file name replaces the stored one and fixes the type by its suffix; it raises exactly when no usable class is resolved |
| Convert.RegisterThenLookup | client/jim_mes/convert.py:29-35 | a registered name answers its object, and unregistering a fresh name restores the registry |
| ServerParts.WithClient | server/core.py:155-157 | only a presence gets the socket attached as `client`; every other field is as read, and a non-presence message is queued untouched |
| ServerParts.Calls | server/core.py:98-100 | one `update` call per subscribed observer, with the event, in attachment order |
| ServerParts.Handled | server/core.py:182-188 | every message before the first raising one is handed over, the raising one included, and none after it |
| ServerParts.HandledAt | server/core.py:182-188 | the dispatch stops right after the first message that raises |
| ServerParts.HandledAll | server/core.py:182-186 | with no raising message the whole queue is handed over |
| LegacyServer.Receive | server/core.py:146-155 | a raising read loses the client, an empty read is silence, non-empty data that is not UTF-8 makes the debug line's decode raise before parsing, and any other data is parsed as one message, which fails exactly when the codec does; the read takes at most 1024 bytes and the rest stays queued |
| LegacyServer.ReceiveWritten | server/core.py:147-155 | a reply written unframed and arriving whole is read back with the same fields, the time stamp excepted |
| LegacyServer.LongReplySplit | server/core.py:147 | a reply longer than 1024 bytes is cut, and its tail is left for the next read |
| LegacyServer.Server.constructor | server/core.py:34-41 | no clients, no queued messages and no observers at start |
| LegacyServer.Server.Attach | server/core.py:57-72 | the observer is appended to the event's list and True is returned |
| LegacyServer.Server.Detach | server/core.py:74-89 | one occurrence is removed and True returned; ValueError and no change when the observer is not subscribed |
| LegacyServer.Server.Notify | server/core.py:91-100 | exactly the event's observers are updated, in attachment order; none for an unknown event |
| LegacyServer.Server.ReadClientData | server/core.py:139-158 | a raising read removes the client, unless the log line's `getpeername` raises first (closed socket or reset connection) or the client is already gone, which raise with the list unchanged; an empty read queues nothing; data that is not UTF-8 raises in the debug line, and data the codec rejects raises, both queueing nothing; a decoded message is queued, with the socket attached only to a presence |
| LegacyServer.Server.WriteClientData | server/core.py:160-173 | the encoded bytes are sent with no length prefix; on a broken pipe exactly that client is removed and closed and the others stay |
| LegacyServer.Server.Process | server/core.py:175-189 | the queued messages go to the command table until one raises, and the queue is empty afterwards either way |
| Net.RecvStep | talkative_server/talkative_server/core.py:199 | one read never returns more bytes than asked for |
| Net.RecvAll | talkative_server/talkative_server/core.py:186-203 | an answer of bytes is never longer than asked for, and in the server's variant (no timeout handling) it is exactly as long |
| Net.RecvAllMeaning | talkative_client/talkative_client/core.py:79-98 | with enough bytes supplied, exactly the first `n` are returned; otherwise None at end of stream, the partial bytes on a client timeout, and an escaping exception in every other case |
| Net.RecvAllOverflow | talkative_server/talkative_server/core.py:198-203 | a first packet holding more than is wanted gives the wanted prefix at once |
| Net.RecvAllWhole | talkative_server/talkative_server/core.py:198-203 | a packet taken whole carries the meaning over from the events after it |
| Net.RecvAllExact | talkative_client/talkative_client/core.py:89-98 | when at least `n` bytes arrive before any interruption, exactly `n` of them are returned |
| Net.RecvAllFromPacket | talkative_server/talkative_server/core.py:198-203 | from one packet holding more than `n` bytes, its first `n` are returned and the rest stays queued |
| Net.RecvAllEofFirst | talkative_client/talkative_client/core.py:95-96 | an empty packet before any byte gives None |
| Net.RecvAllTimeout | talkative_client/talkative_client/core.py:93-94 | a timeout before `n` bytes: the client returns what it has, the server lets the timeout escape |
| Net.RecvStepWeight | talkative_server/talkative_server/core.py:199 | a read never adds to what is queued and consumes something whenever anything is queued |
| Net.RecvAllWeight | talkative_server/talkative_server/core.py:198-203 | the loop never adds to what is queued, and consumes something whenever it returns new bytes |
| Net.RecvAllRest | talkative_server/talkative_server/core.py:198-203 | after a complete read, exactly the bytes after the ones returned stay queued, ended by the same event |
| Net.Socket.Recv | talkative_server/talkative_server/core.py:199 | one `recv(k)`: the step of the inbound queue |
| Net.Socket.SendAll | talkative_server/talkative_server/core.py:218 | OSError on a closed socket, BrokenPipeError to a gone peer, else every byte is sent |
| Net.Socket.Close | talkative_server/talkative_server/core.py:221 | the socket is closed |
| Net.Socket.PeerName | talkative_server/talkative_server/core.py:177 | `getpeername()` raises exactly when the socket is closed or its connection reset |
| ThreadServer.ReceiveWritten | talkative_server/talkative_server/core.py:167-203 | a message framed by `write_client_data` and arriving whole is read back with the same fields, the time stamp excepted, and the events after it stay queued |
| ThreadServer.Body | talkative_server/talkative_server/core.py:179-183 | an empty body is silence; a non-empty body that is not UTF-8 makes the debug line raise; a UTF-8 body is parsed and is undecodable exactly when the codec rejects it |
| ThreadServer.ReceiveFrame | talkative_server/talkative_server/core.py:167-203 | a 4-byte header then that many bytes: a frame arriving in one packet is read as its body and the events after it stay queued |
| ThreadServer.ReceiveNotUtf8 | talkative_server/talkative_server/core.py:179-183 | a framed body that is not UTF-8 raises in the debug line whatever the codec would make of it, and the events after it stay queued |
| ThreadServer.Views | talkative_server/talkative_server/core.py:243 | one socket state per logged-in entry, in order |
| ThreadServer.SentOf | talkative_server/talkative_server/core.py:243-245 | the output of each logged-in entry's socket, in order |
| ThreadServer.NotifiedSkip | talkative_server/talkative_server/core.py:244-246 | a write that does not go through adds nothing to the output |
| ThreadServer.FirstFailure | talkative_server/talkative_server/core.py:243-248 | every entry before it carries on, and the entry at it (if any) does not |
| ThreadServer.FirstFailureAt | talkative_server/talkative_server/core.py:243-248 | the first entry that does not carry on is the one after a run of entries that do |
| ThreadServer.Alive | talkative_server/talkative_server/core.py:246-248 | only entries that were in `names` are kept |
| ThreadServer.AliveSnoc | talkative_server/talkative_server/core.py:246-248 | one more entry is kept exactly when its write did not raise OSError |
| ThreadServer.Server.constructor | talkative_server/talkative_server/core.py:43-51 | no clients, messages, names or observers at start; the notice the server sends is `Message(response=205)` under its clock |
| ThreadServer.Server.Attach | talkative_server/talkative_server/core.py:53-71 | the observer is appended to the event's list and True is returned |
| ThreadServer.Server.Detach | talkative_server/talkative_server/core.py:73-89 | one occurrence is removed; ValueError and no change when the observer is not subscribed |
| ThreadServer.Server.Notify | talkative_server/talkative_server/core.py:91-102 | exactly the event's observers are updated, in attachment order; none for an unknown event |
| ThreadServer.Server.RecvAllOf | talkative_server/talkative_server/core.py:186-203 | the loop answers what the `recvall` meaning says, and consumes what it says |
| ThreadServer.Server.ReadData | talkative_server/talkative_server/core.py:167-184 | a broken read removes the client and gives None, unless `getpeername` in the log line raises or the client is already gone, which raise with the list unchanged; end of stream or an empty body gives None; a body that is not UTF-8 raises in the debug line and one the codec rejects raises, with the list unchanged; a decoded body gives its message |
| ThreadServer.Server.Disconnected | talkative_server/talkative_server/core.py:176-178 | the handler of a broken read: a closed or reset socket makes `getpeername` raise with `clients` unchanged; otherwise the client is removed and None given, and ValueError when it is not listed |
| ThreadServer.Server.RemoveClient | talkative_server/talkative_server/core.py:178 | the first occurrence is removed, and ValueError with no change when the client is not listed |
| ThreadServer.Server.ReadClientData | talkative_server/talkative_server/core.py:154-165 | a raise exactly for a body that is not UTF-8, a body the codec rejects, or a broken read whose handler raises; a message is queued only when one was read, with the socket attached only to a presence |
| ThreadServer.Server.WriteClientData | talkative_server/talkative_server/core.py:205-221 | the 4-byte big-endian length, then the encoded message; on a broken pipe exactly that client is removed and closed and the others stay |
| ThreadServer.Server.Process | talkative_server/talkative_server/core.py:223-239 | the queued messages go to the command table until one raises, and the queue is empty afterwards either way |
| ThreadServer.Server.NoticeAt | talkative_server/talkative_server/core.py:244-245 | one notice written to entry `i`: its verdict, one more frame when it goes through, the client removed from `clients` exactly on a broken pipe, and the later entries' sockets as they were |
| ThreadServer.Server.DropClient | talkative_server/talkative_server/core.py:247 | the client's first occurrence is removed when listed, and no other socket's membership changes |
| ThreadServer.Server.ForgetAt | talkative_server/talkative_server/core.py:246-248 | the client is removed from `clients` and its name deleted exactly when the client was listed; otherwise the removal raises and both stay |
| ThreadServer.Server.NoticeUntilFailure | talkative_server/talkative_server/core.py:243-248 | the loop as written notifies every entry up to the first one that does not carry on and stops there, with `clients` pruned of the broken pipes before it |
| ThreadServer.Server.DropAt | talkative_server/talkative_server/core.py:246-247 | the corrected handler removes the client when present and keeps the later entries' states |
| ThreadServer.Server.ServiceUpdateLists | talkative_server/talkative_server/core.py:241-248 | as written: a 205 notice goes to each entry until the first failing write, a socket filed under several names once per name, each write meeting the state the previous write to that socket left; it finishes exactly when none fails; an OSError deletes that name (when its client was listed) and makes the iteration raise; `clients` loses the broken pipes before it and, on OSError, that client |
| ThreadServer.Pruned | talkative_server/talkative_server/core.py:243-248 | the clients left after the first `k` writes keep only clients that were there |
| ThreadServer.PruneStep | talkative_server/talkative_server/core.py:244-247 | one write's effect on `clients` keeps only clients that were there |
| ThreadServer.FirstRaise | talkative_server/talkative_server/core.py:243-245 | the first entry whose write raises an error other than OSError, none before it, or the length when there is none |
| ThreadServer.FirstRaiseAt | talkative_server/talkative_server/core.py:243-245 | an index with no raise before it and a raise at it (or the end) is the first raise |
| ThreadServer.Server.HandleFailure | talkative_server/talkative_server/core.py:246-248 | the end of the loop as written: on OSError, the client is removed from `clients` when listed and its name is deleted; otherwise nothing changes |
| ThreadServer.Server.NoticeAndDrop | talkative_server/talkative_server/core.py:244-248 | one write of the intended loop: its verdict, one more entry notified, and `clients` losing the client on a broken pipe or OSError |
| ThreadServer.Server.NoticeAll | talkative_server/talkative_server/core.py:243-248 | the intended loop writes every entry up to the first write raising another error, raising exactly when there is one; without one it keeps the entries whose write did not raise OSError (broken pipes included); `clients` loses the broken pipes and the OSError clients before that point |
| ThreadServer.Server.ServiceUpdateListsFixed | talkative_server/talkative_server/core.py:241-248 | corrected: finishes exactly when no write raises another error, and then every entry is notified and `names` keeps the entries whose write did not raise OSError (broken pipes included); when it raises, `names` is unchanged; either way the entries before the first raise are notified and `clients` is pruned of their broken pipes and OSError clients |
| ThreadServer.Silent | talkative_server/talkative_server/core.py:245 | a codec under which every message is written as no bytes |
| ThreadServer.ClosedFirstSocket | talkative_server/talkative_server/core.py:243-248 | with the first of two users' sockets closed, the loop as written raises before the second user hears anything |
| ThreadServer.ClosedFirstSocketFixed | talkative_server/talkative_server/core.py:243-248 | under the corrected loop the second user gets the notice and only the first name is deleted |
| ThreadServer.SharedBrokenSocket | talkative_server/talkative_server/core.py:243-248 | one socket filed under two names with its peer gone: the first write drops and closes the client, the second raises OSError on the closed socket and the removal raises ValueError, so both names stay and the client is no longer listed |
| ThreadServer.Effective | talkative_server/talkative_server/core.py:243-245 | the state each entry's write meets: the socket's state at the start for its first entry, and the state after a write for a later entry on the same socket |
| ThreadServer.EffectiveAtStart | talkative_server/talkative_server/core.py:243-245 | before the loop, each socket's actual state is the one its first entry's write meets, and every later entry on a socket meets the state the earlier write leaves |
| ThreadServer.EffectiveDistinct | talkative_server/talkative_server/core.py:243-245 | with no socket under two names, every write meets its socket's state at the start |
| ThreadServer.HitsDistinct | talkative_server/talkative_server/core.py:244-245 | with no socket under two names, each socket receives at most one notice: exactly one when its entry was reached and its write went through |
| ThreadServer.Server.UpdateListsOn | talkative_server/talkative_server/core.py:241-248 | the loop as written over the starting entries: finishes exactly when no write fails, notifies up to the first failure, and on OSError deletes that name and removes that client when it is still listed |
| ThreadServer.Server.NoticeUntilRaise | talkative_server/talkative_server/core.py:243-248 | the intended loop up to the first write that raises another error: every entry before it notified, the entries whose write did not raise OSError kept, `clients` pruned of broken pipes and OSError clients |
| SocketClient.ReadReplyWeight | talkative_client/talkative_client/core.py:62-77 | a read never adds to what is queued, and a read that yields a message consumes some of it |
| SocketClient.ReadReplyFrame | talkative_client/talkative_client/core.py:66-77 | whenever the peer supplies the 4-byte length of a payload and then the payload, in however many packets, exactly that payload is decoded |
| SocketClient.ReadReplySent | talkative_client/talkative_client/core.py:42-77 | what `send_message` writes, `read_data` reads back with the same fields, the time stamp excepted |
| SocketClient.ReadReplyShortHeader | talkative_client/talkative_client/core.py:66-75 | fewer than four header bytes give None at end of stream or on an empty timeout, a raise from the unpacking when one to three bytes came, and a process exit on any other socket error |
| SocketClient.ReadReplyEmptyFrame | talkative_client/talkative_client/core.py:77 | a framed empty payload reads as no message |
| SocketClient.ReadReply | talkative_client/talkative_client/core.py:62-77 | a 4-byte header then that many bytes: no reply at end of stream or on an empty read, the connection lost on a socket error, a garbled reply for a short header or a body that does not parse |
| SocketClient.Transmit | talkative_client/talkative_client/core.py:49-53 | the frame is appended when the socket can send, else the bytes stay |
| SocketClient.Refreshed | talkative_client/talkative_client/core.py:148-161 | a stored record keeps its name and gets the configured password, the derived key and `active = False`; without one a record is created for the configured name |
| SocketClient.AuthReply | talkative_client/talkative_client/core.py:177-179 | response 511, action `auth`, the user name, and the base64 digest of the nonce under the account key |
| SocketClient.Challenge | talkative_client/talkative_client/core.py:175-187 | one challenge turn either ends the connection with the record untouched (a raise or an exit) or goes on with the next reply; it only appends to what was sent and only shrinks what is queued |
| SocketClient.Exchange | talkative_client/talkative_client/core.py:166-190 | the loop always ends with a record |
| SocketClient.Connecting | talkative_client/talkative_client/core.py:129-164 | when no attempt connects the process exits with nothing sent and the record unchanged |
| SocketClient.ExchangeSends | talkative_client/talkative_client/core.py:166-190 | the loop only appends to the bytes sent, and adds nothing on a socket that cannot send |
| SocketClient.ExchangeKeeps | talkative_client/talkative_client/core.py:175-187 | the loop changes only the record's `active` flag |
| SocketClient.ExchangeEnds | talkative_client/talkative_client/core.py:167-190 | established only on 200 or 205, rejected only with a 400's error text, returning on any other code, and the record stays inactive only when no challenge was answered |
| SocketClient.AcceptedAuthReturns | talkative_client/talkative_client/core.py:175-190 | after a 511 the digest is sent, and the server's 212 is an unknown code here: `connect` returns before the reader starts, with the record active |
| SocketClient.Client.constructor | talkative_client/talkative_client/core.py:107-117 | the client holds the socket, configuration and stored record given |
| SocketClient.Client.SendMessage | talkative_client/talkative_client/core.py:42-60 | the 4-byte big-endian length, then the message bytes; socket errors are only logged, and a message too long for the prefix raises with nothing sent |
| SocketClient.Client.RecvAll | talkative_client/talkative_client/core.py:79-98 | the loop answers what the `recvall` meaning says: the bytes so far on a timeout, None on an empty packet |
| SocketClient.Client.ReadData | talkative_client/talkative_client/core.py:62-77 | the header and body read, with the outcome the reading function gives |
| SocketClient.Client.Dial | talkative_client/talkative_client/core.py:130-139 | connected exactly when one of the five attempts gets through |
| SocketClient.Client.HandshakeLoop | talkative_client/talkative_client/core.py:166-190 | the loop's outcome, the bytes sent and read and the saved record are those of the handshake function |
| SocketClient.Client.Authenticate | talkative_client/talkative_client/core.py:175-187 | one challenge turn leaves the socket and the record as the turn function says, the record marked active when the loop goes on |
| SocketClient.Client.Connect | talkative_client/talkative_client/core.py:119-190 | the connection attempts, the record refresh, the presence and the handshake together end as the `connect` function says |
| Framing.Transport.constructor | talkative_server/talkative_server/async_core.py:158-162 | a fresh transport has written nothing and is open, with the event loop's read size |
| Framing.Transport.Write | talkative_server/talkative_server/async_core.py:194-203 | the 4-byte big-endian length and then exactly the payload; a closed transport drops the write; a broken pipe closes the transport instead; a payload too long for the prefix raises and changes nothing |
| Framing.Transport.Close | talkative_client/talkative_client/async_core.py:154-155 | the transport is closed and its output kept |
| Framing.Written | talkative_server/talkative_server/async_core.py:198-203 | a closed wire is left as it is; otherwise the frame is appended, or on a broken pipe the wire is closed with nothing added |
| Framing.Initial | talkative_server/talkative_server/async_core.py:162-164 | the event loop's read size is kept as `def_size`, the buffer is empty, and the next read is the 4-byte header |
| Framing.HeaderChunk | talkative_server/talkative_server/async_core.py:167-170 | a chunk of exactly four bytes sets `cur_size` to its big-endian value, is not buffered and dispatches nothing; the server and phone cap the next read at `min(cur_size, def_size)`, the client opens it to `def_size` |
| Framing.BodyChunk | talkative_server/talkative_server/async_core.py:171-179 | any other chunk is buffered; a payload, the whole buffer, is dispatched exactly when the buffer reaches `cur_size`, and then the state is back at the header read |
| Framing.FullReadsOneFrame | talkative_server/talkative_server/async_core.py:166-180 | under full reads, one frame of a well-sized payload is a header followed by that payload in one read |
| Framing.FullReadsDeliver | talkative_server/talkative_server/async_core.py:166-180 | under full reads, payloads that are non-empty, not four bytes long and fit one read are dispatched exactly as framed |
| Framing.FourBytePieceIsTakenAsHeader | talkative_server/talkative_server/async_core.py:167-170 | a payload of `def_size + 4` bytes is never dispatched: its last four bytes are taken for a new header |
| Framing.UncappedReadSwallowsNextFrame | talkative_client/talkative_client/async_core.py:127-140 | with the client's uncapped read, a payload followed by a waiting frame is dispatched together with that frame |
| Framing.UncappedFullReadsMergeFrames | talkative_client/talkative_client/async_core.py:127-140 | under full reads two small frames reach the client as one merged payload |
| Framing.FixedStepMeaning | talkative_server/talkative_server/async_core.py:166-180 | one step of the corrected reader either completes exactly one frame of the bytes consumed since the last boundary, or adds the chunk to them and stays in a valid state |
| Framing.PendingIncomplete | talkative_server/talkative_server/async_core.py:166-180 | the bytes a valid state stands for never hold a complete frame |
| Framing.ComposeSound | talkative_server/talkative_server/async_core.py:166-180 | two sound stretches of input in a row make a sound stretch |
| Framing.FeedSoundStep | talkative_server/talkative_server/async_core.py:166-180 | soundness after the first chunk gives soundness before it |
| Framing.FixedFeedSound | talkative_server/talkative_server/async_core.py:166-180 | for every chunking the event loop can produce, the frames dispatched followed by the bytes still pending are exactly the bytes received |
| Framing.UnframeFrames | talkative_server/talkative_server/async_core.py:199 | the first frame of a list of frames is read back, leaving the others |
| Framing.FramesUnique | talkative_server/talkative_server/async_core.py:199 | frames followed by an incomplete remainder determine the payloads and the remainder |
| Framing.FixedReaderDeliversFrames | talkative_server/talkative_server/async_core.py:166-180 | whatever the chunking, the corrected reader dispatches exactly the payloads that were framed, in order, and ends at a header boundary |
| Framing.FixedNeverAsksForNothing | talkative_server/talkative_server/async_core.py:169 | the corrected reader never asks the event loop for an empty read |
| Framing.EmptyPayloadAsksForNothing | talkative_server/talkative_server/async_core.py:169 | as written, a zero-length header sets the read size to 0, and an empty payload is never dispatched |
| Framing.Receiver.constructor | talkative_server/talkative_server/async_core.py:158-164 | the receiver starts in the initial state for the transport's read size, and nothing is written |
| Framing.Receiver.DataReceived | talkative_server/talkative_server/async_core.py:166-176 | the payload dispatched is that of one reader step; the sizes are those of the step, while the buffer still holds a completed payload until it is parsed; nothing is written |
| Framing.Receiver.Release | talkative_server/talkative_server/async_core.py:178 | the buffer is emptied and the sizes are kept |
| Dispatch.Reached | talkative_client/talkative_client/async_core.py:68-72 | a `notify` without a protocol and a message reaches every widget up to the first command, whose `update` then raises TypeError |
| Dispatch.Repeat | talkative_server/talkative_server/async_core.py:105-112 | what each of `n` widgets receives: the event, `n` times |
| Dispatch.AttachAll | talkative_server/talkative_server/async_core.py:242-248 | the event table after `init_cmd` on each registration, in order |
| Dispatch.CommandsNamed | talkative_server/talkative_server/async_core.py:242-248 | the commands registered under an event's name, in order |
| Dispatch.Unnamed | talkative_server/talkative_server/async_core.py:238 | the registrations under other names, in order |
| Dispatch.CommandsIn | talkative_server/talkative_server/async_core.py:105-112 | no more command calls than observers |
| Dispatch.CommandKey | talkative_server/talkative_server/async_core.py:127-132 | the action when truthy, else the response when truthy, else no event at all |
| Dispatch.NameArg | talkative_server/talkative_server/async_core.py:230 | the name passed when truthy, else the command's own `name` |
| Dispatch.AttachAllMeaning | talkative_server/talkative_server/async_core.py:242-248 | after `init` each event's observers are the earlier ones followed by the commands registered under its name, in registration order |
| Dispatch.CommandsNamedUnique | talkative_server/talkative_server/async_core.py:242-248 | with distinct names, exactly one command answers each registered name |
| Dispatch.CommandsNamedNone | talkative_server/talkative_server/async_core.py:242-248 | an unregistered name gets no command |
| Dispatch.CommandsNamedAppend | talkative_server/talkative_server/async_core.py:229-248 | the commands under a name in two runs of registrations are those of the first run followed by those of the second |
| Dispatch.UnnamedTwice | talkative_server/talkative_server/async_core.py:236-238 | after `unreg_command` nothing is left under the name, and removing it again changes nothing |
| Guards.NameLookup | talkative_server/talkative_server/decorators.py:75 | TypeError exactly for a list or dict key; a connection is found only when a string key names an entry of `names`, it is that entry's connection, and nothing is found when no entry has the name |
| Guards.LoginRequired | talkative_server/talkative_server/decorators.py:70-80 | TypeError exactly when the guard does not admit the message: no field names a connection, or a field read before the one that does is a list or dict; otherwise the wrapped function's own result |
| Guards.LoginConnection | talkative_server/talkative_server/decorators.py:75 | the first lookup among `user_account_name`, `account_name` and `from` that finds a connection or raises |
| Guards.AdmitsNamed | talkative_server/talkative_server/decorators.py:70-80 | the guard admits only a message that names a connection, and admits every such message whose fields are neither lists nor dicts |
| Guards.ListAccountRefused | talkative_server/talkative_server/decorators.py:75 | a list `user_account_name` is refused even when `from` names a connection |
| Guards.FirstMessage | talkative_server/talkative_server/decorators.py:87-90 | the first message argument, with none before it; None exactly when there is no message |
| Guards.Values | talkative_server/talkative_server/decorators.py:91 | the keyword values, in order |
| Guards.CheckedMessage | talkative_server/talkative_server/decorators.py:87-94 | the first keyword message, else the first positional one |
| Guards.CheckedUser | talkative_server/talkative_server/decorators.py:87-94 | the user of the checked message's account name, None without a message or for an unknown name |
| Guards.LoginRequiredDb | talkative_server/talkative_server/decorators.py:85-100 | the user checked is the one of the first keyword message, else the first positional one; the call is admitted exactly when that user exists and has an open session, TypeError otherwise |
| Guards.KeywordMessageWins | talkative_server/talkative_server/decorators.py:91-94 | a keyword message overrides any positional one |
| AsyncServer.Wires | talkative_server/talkative_server/async_core.py:135 | one wire state per transport of the loop, in order |
| AsyncServer.Peers | talkative_server/talkative_server/async_core.py:219 | one peer address per transport, in order |
| AsyncServer.UserTransportFixed | talkative_server/talkative_server/async_core.py:214-221 | corrected: never raises; no transport for a user without a session, else the first transport at the session's address |
| AsyncServer.UserTransport | talkative_server/talkative_server/async_core.py:214-221 | as written: no transport when there are none; AttributeError for a user without a session; else the first transport at the session's address |
| AsyncServer.ClientDigest | talkative_server/talkative_server/async_core.py:301 | `a2b_base64` of the `bin` field, None when it raises |
| AsyncServer.RoutesAgreeOnline | talkative_server/talkative_server/async_core.py:214-221 | for a user with a session, the lookup as written and the corrected one agree |
| AsyncServer.OfflineDestinationRaises | talkative_server/talkative_server/async_core.py:215-220 | as written, a message to a user without a session raises AttributeError, because the sender's own transport is never skipped; the corrected lookup gives no route |
| AsyncServer.AuthChallenge | talkative_server/talkative_server/async_core.py:290 | response 511, action `auth`, and the nonce as `bin` |
| AsyncServer.PresenceChallenge | talkative_server/talkative_server/async_core.py:277-290 | an unknown user, and a user with an open session, get an error reply and nothing is filed; otherwise the user's entry is the HMAC of the nonce under the stored key with the offered public key, and the reply is the challenge |
| AsyncServer.AuthVerdict | talkative_server/talkative_server/async_core.py:297-309 | an unknown user is refused with the table unchanged; once the client's digest decodes, the user's entry is popped whatever the outcome, and access is granted exactly when a non-empty pending digest equals the client's |
| AsyncServer.AuthAnswer | talkative_server/talkative_server/async_core.py:300-309 | the not-registered error, 212 with action `auth` when granted, and 412 with the authorization error otherwise |
| AsyncServer.AuthIsOneShot | talkative_server/talkative_server/async_core.py:302-309 | after any decided attempt, the same message is denied: a replayed auth gets 412 |
| AsyncServer.ChallengeAnswered | talkative_server/talkative_server/async_core.py:287-306 | a client that signs the issued nonce with the stored key is granted, with the public key it offered at presence |
| AsyncServer.KeyFound | talkative_server/talkative_server/async_core.py:388-392 | response 202 carrying the key, the destination's name and the action |
| AsyncServer.KeyReply | talkative_server/talkative_server/async_core.py:384-394 | the destination's key when it has a truthy one, else the key error |
| AsyncServer.ListsChanged | talkative_server/talkative_server/async_core.py:140 | the notice has response 205 |
| AsyncServer.Notified | talkative_server/talkative_server/async_core.py:135-140 | after `k` steps, the transports before `k` other than `excep` have the notice appended, and the rest are unchanged |
| AsyncServer.NotifiedStep | talkative_server/talkative_server/async_core.py:135-140 | one more step writes exactly one more transport, unless it is `excep` |
| AsyncServer.Server.constructor | talkative_server/talkative_server/async_core.py:56-60 | no observers and no pending authentication at start |
| AsyncServer.Server.Attach | talkative_server/talkative_server/async_core.py:114-119 | the observer is appended to the event's list and True is returned |
| AsyncServer.Server.Detach | talkative_server/talkative_server/async_core.py:121-125 | one occurrence is removed; ValueError and no change when the observer is not subscribed |
| AsyncServer.Server.Announce | talkative_server/talkative_server/async_core.py:105-112 | a `notify(event)` without arguments signals every widget up to the first command, which raises |
| AsyncServer.Server.WriteTo | talkative_server/talkative_server/async_core.py:194-203 | the frame is written to the transport given, and a payload too long for the prefix raises |
| AsyncServer.Server.Guard | talkative_server/talkative_server/decorators.py:85-100 | the call is admitted exactly when the message's user is known and has an open session |
| AsyncServer.Server.PresenceUpdate | talkative_server/talkative_server/async_core.py:277-291 | the entry is filed before the reply is written, and `done_presence` is announced only after a challenge went out |
| AsyncServer.Server.AuthUpdate | talkative_server/talkative_server/async_core.py:297-309 | the user's entry is popped; when granted, 212 is written, then a key that is no string or None makes the login raise with nothing stored, and otherwise a session is opened at the connection's address with the key and `auth_new_user` is announced; when denied, 412 is written and nothing else changes |
| AsyncServer.Server.GetUserTr | talkative_server/talkative_server/async_core.py:214-221 | the corrected lookup: no transport exactly when no route, else the first transport at the session's address |
| AsyncServer.Server.MessageUpdate | talkative_server/talkative_server/async_core.py:259-271 | a message whose `user` account, or else `to` account, has no session is refused with nothing written or counted; otherwise the message is relayed |
| AsyncServer.Server.Relay | talkative_server/talkative_server/async_core.py:261-271 | a message without the required fields, or to a user without a live transport, writes nothing and records no history; otherwise it is written to the destination's transport, counted for both users, and `done_message` is announced |
| AsyncServer.Server.Deliver | talkative_server/talkative_server/async_core.py:268-271 | the message is written at the destination's transport only, then one sent and one accepted row are added, then `done_message` is announced |
| AsyncServer.Server.Relayed | talkative_server/talkative_server/async_core.py:261-271 | the effect of a message past the guard: nothing for an invalid message or a user without a transport, else the delivery |
| AsyncServer.Server.Delivered | talkative_server/talkative_server/async_core.py:268-271 | the message written at one transport, the sent and accepted rows, and `done_message` announced, none of it after a write that raises |
| AsyncServer.Server.Invoke | talkative_server/talkative_server/async_core.py:112 | one command's `update`; a handler this model leaves out returns normally and changes neither the pending logins nor the signals |
| AsyncServer.Server.RequestKeyUpdate | talkative_server/talkative_server/async_core.py:382-397 | the key reply goes back to the asker, then `done_pubkey_need` is announced; a message whose `user` account, or else `to` account, has no session is refused |
| AsyncServer.Server.ExitUpdate | talkative_server/talkative_server/async_core.py:422-430 | the connection is closed, every session of the user ends with one logout row, and `done_exit` is announced; a sender without a session is refused |
| AsyncServer.Server.Visit | talkative_server/talkative_server/async_core.py:108-112 | a widget gets the signal and a command is called; only a command can raise |
| AsyncServer.Server.Notify | talkative_server/talkative_server/async_core.py:105-112 | a list or dict event raises TypeError before anyone is reached; otherwise observers are handled in attachment order until one raises, and the calls made are exactly the commands among those reached |
| AsyncServer.Server.RunCommand | talkative_server/talkative_server/async_core.py:127-132 | the message is notified under its action, else its response; with neither nothing is called and nothing changes; a list or dict key raises with nothing called |
| AsyncServer.Server.WriteAt | talkative_server/talkative_server/async_core.py:194-203 | the frame is appended to the chosen transport and every other transport keeps its state |
| AsyncServer.Server.ServiceUpdateLists | talkative_server/talkative_server/async_core.py:134-140 | one 205 notice to every transport but `excep`, in order; a notice too long for the prefix raises at the first one with nothing written |
| AsyncServer.Registry | talkative_server/talkative_server/async_core.py:433-442 | every command is registered under its own truthy name |
| AsyncServer.RegistryDispatch | talkative_server/talkative_server/async_core.py:433-442 | once started, a message whose action is a registered name calls exactly that command, once |
| AsyncServer.Router.constructor | talkative_server/talkative_server/async_core.py:225-227 | no registrations and no source at start |
| AsyncServer.Router.RegCommand | talkative_server/talkative_server/async_core.py:229-234 | a registration without a truthy name is a no-op; otherwise it is appended, and attached at once when a source is set |
| AsyncServer.Router.UnregCommand | talkative_server/talkative_server/async_core.py:236-240 | every registration under the name is dropped and the others kept in order; with a source, that one command is detached, raising ValueError when it was not subscribed |
| AsyncServer.Router.Init | talkative_server/talkative_server/async_core.py:242-248 | every registration is attached to the source, in order |
| AsyncServer.Launch | talkative_server/talkative_server/async_core.py:56-61 | after import and start, the router holds the registrations in order and the server's observer table is exactly their attachment |
| AsyncServer.Protocol.constructor | talkative_server/talkative_server/async_core.py:158-164 | the receiver starts at the header read with the transport's read size, nothing is written, and `new_connect` is announced to the widgets up to the first command, `connectRaised` recording whether a command was reached |
| AsyncServer.Protocol.DataReceived | talkative_server/talkative_server/async_core.py:163-182 | after a `connection_made` whose `new_connect` raised, `long_data` was never set, so a chunk that is not a 4-byte header raises AttributeError and closes the transport, with the reader and the server unchanged; otherwise the reader sizes advance by one step; an incomplete payload dispatches nothing; a completed payload that is not UTF-8 raises in the debug line, and one the codec rejects raises, both with nothing called and the payload still buffered; a parsed one empties the buffer and is dispatched by `run_command`; any exception closes the transport |
| AsyncClient.Registry | talkative_client/talkative_client/async_core.py:226-227 | `ClientAuth` and `ClientError` are registered under their own truthy names |
| AsyncClient.ClientTransport.constructor | talkative_client/talkative_client/async_core.py:68-92 | no observers, no signals, and `on_con_lost` not yet resolved at start |
| AsyncClient.ClientTransport.Attach | talkative_client/talkative_client/async_core.py:74-79 | the observer is appended to the event's list and True is returned |
| AsyncClient.ClientTransport.Detach | talkative_client/talkative_client/async_core.py:81-85 | one occurrence is removed; ValueError and no change when the observer is not subscribed |
| AsyncClient.ClientTransport.Announce | talkative_client/talkative_client/async_core.py:68-72 | a `notify(event)` without arguments reaches the widgets up to the first command, which raises |
| AsyncClient.ClientTransport.Announced | talkative_client/talkative_client/async_core.py:68-72 | the widgets up to the first command get the event, and the call raised exactly when a command was reached |
| AsyncClient.ClientTransport.WriteTo | talkative_client/talkative_client/async_core.py:146-155 | the frame is written, and a payload too long for the prefix raises |
| AsyncClient.ClientTransport.AuthUpdate | talkative_client/talkative_client/async_core.py:197-215 | on 511 the digest of the nonce is written with the user name and `done_511` is announced; on 212 the record is marked active and `done_auth` announced; on 412 `fail_auth` is announced with nothing written; no local record raises before anything is written |
| AsyncClient.ClientTransport.ErrorUpdate | talkative_client/talkative_client/async_core.py:218-223 | `on_con_lost` is resolved, and a second resolution raises |
| AsyncClient.ClientTransport.Invoke | talkative_client/talkative_client/async_core.py:197-223 | a command's `update` never changes the read size |
| AsyncClient.ClientTransport.Visit | talkative_client/talkative_client/async_core.py:71-72 | a widget receives the event and a command is called; only a command can raise |
| AsyncClient.ClientTransport.Notify | talkative_client/talkative_client/async_core.py:68-72 | a list or dict event raises TypeError with nothing changed; otherwise observers are handled in attachment order until one raises, and the calls made are exactly the commands among those reached |
| AsyncClient.ClientTransport.RunCommand | talkative_client/talkative_client/async_core.py:87-92 | the message is notified under its action, else its response; with neither nothing is called and nothing changes; a list or dict key raises with nothing changed |
| AsyncClient.Router.constructor | talkative_client/talkative_client/async_core.py:165-167 | no registrations and no source at start |
| AsyncClient.Router.RegCommand | talkative_client/talkative_client/async_core.py:169-174 | a registration without a truthy name is ignored; otherwise it is appended, and attached at once when a source is set |
| AsyncClient.Router.UnregCommand | talkative_client/talkative_client/async_core.py:176-180 | every registration under the name is dropped and the others kept in order; with a source, the command is detached, raising ValueError when it was not subscribed |
| AsyncClient.Router.Init | talkative_client/talkative_client/async_core.py:182-188 | every registration is attached to the source, in order |
| AsyncClient.Launch | talkative_client/talkative_client/async_core.py:226-227 | after import and start, the router holds both registrations and the thread's observer table is exactly their attachment |
| AsyncClient.RegistryDispatch | talkative_client/talkative_client/async_core.py:87-92 | a reply with action `auth` goes to `ClientAuth` alone, and a reply with response 400 and no action goes to `ClientError` alone |
| AsyncClient.Protocol.constructor | talkative_client/talkative_client/async_core.py:122-124 | the receiver starts at the header read with the transport's read size, uncapped, nothing is written, and `long_data` is not yet set |
| AsyncClient.Protocol.ConnectionMade | talkative_client/talkative_client/async_core.py:103-124 | the local record is refreshed (password, derived key, inactive), a presence is written, and `new_connect` is notified; `long_data` stays unset exactly when the call raises |
| AsyncClient.Protocol.DataReceived | talkative_client/talkative_client/async_core.py:124-140 | while `long_data` is unset (`connection_made` raised or has not run), a chunk that is not a 4-byte header raises AttributeError and closes the transport, with the reader and the thread unchanged; otherwise the reader state advances by one step; a completed payload that is not UTF-8 raises in the debug line, and one the codec rejects raises, both with nothing called and the payload still buffered; a parsed one leaves the reader in the step's state and is dispatched by `run_command`; any exception closes the transport |
| Handshake.ChallengeGoesToClientAuth | talkative_server/talkative_server/async_core.py:290 | the server's challenge reaches the client's `ClientAuth` alone |
| Handshake.ClientAnswerIsGranted | talkative_client/talkative_client/async_core.py:201-207 | the client's answer to a challenge is granted, with the public key of the presence, when the client holds the stored user's key |
| Handshake.WrongKeyIsDenied | talkative_server/talkative_server/async_core.py:301-309 | an answer signed with a key whose digest differs is denied |
| MongoStore.Tally | talkative_server/talkative_server/db_mongo.py:231-239 | a user's count of one kind of history row never exceeds the rows |
| MongoStore.TallySnoc | talkative_server/talkative_server/db_mongo.py:231-239 | a new row adds one to exactly the count it belongs to |
| MongoStore.SessionsOf | talkative_server/talkative_server/db_mongo.py:137-139 | only that user's session rows, in order |
| MongoStore.EndSessions | talkative_server/talkative_server/db_mongo.py:178 | none of the user's session rows is left |
| MongoStore.EndSessionsMeaning | talkative_server/talkative_server/db_mongo.py:178 | ending a user's sessions leaves that user none and every other user all of theirs |
| MongoStore.SessionsOfAppend | talkative_server/talkative_server/db_mongo.py:137-139 | the sessions of two runs of rows are those of the first run followed by those of the second |
| MongoStore.SessionsOfSnoc | talkative_server/talkative_server/db_mongo.py:169 | a new session row is one more session of its user |
| MongoStore.DropContact | talkative_server/talkative_server/db_mongo.py:212-227 | the contact is gone, no other contact is lost or added, and the list does not grow |
| MongoStore.DropContactPushed | talkative_server/talkative_server/db_mongo.py:212-227 | pulling a contact just pushed gives the contact list back |
| MongoStore.Unlogged | talkative_server/talkative_server/db_mongo.py:229 | only rows of the history remain, and none of them is a `del_contact` row of that user with that note |
| MongoStore.Store.constructor | talkative_server/talkative_server/db_mongo.py:20-25 | the stored users and history are kept and every session row is deleted |
| MongoStore.Store.ByName | talkative_server/talkative_server/db_mongo.py:145-151 | a user is found exactly when it is stored under the lower-cased name; a name that is not a string finds nobody |
| MongoStore.Store.Sent | talkative_server/talkative_server/db_mongo.py:231-234 | the user's `mes_sent` history rows |
| MongoStore.Store.Accepted | talkative_server/talkative_server/db_mongo.py:236-239 | the user's `mes_accepted` history rows |
| MongoStore.Store.ActiveByName | talkative_server/talkative_server/db_mongo.py:259-263 | a session of the named user when there is one, else nothing |
| MongoStore.Store.HasContact | talkative_server/talkative_server/db_mongo.py:185-201 | False for a falsy or unknown name, else whether the user is in the contact list |
| MongoStore.Store.LoginUser | talkative_server/talkative_server/db_mongo.py:153-170 | a known user with a key that is a string or None (the `pub_key` StringField of db_mongo.py:131) gets the login time and the key, one session row and one login row; an unknown user or any other key raises with nothing stored |
| MongoStore.Store.LogoutUser | talkative_server/talkative_server/db_mongo.py:172-183 | every session of the user is deleted and one logout row, without the user, is added |
| MongoStore.Store.AddContact | talkative_server/talkative_server/db_mongo.py:203-214 | a known user not yet a contact is pushed and one `add_contact` row noted; otherwise nothing changes |
| MongoStore.Store.DelContact | talkative_server/talkative_server/db_mongo.py:216-229 | a present contact is pulled and the matching `del_contact` rows are deleted; otherwise nothing changes |
| MongoStore.Store.ProcMessage | talkative_server/talkative_server/db_mongo.py:108-122 | one sent row for a known sender and one accepted row for a known receiver, and nothing for an unknown one |
| MongoStore.ByNameIgnoresCase | talkative_server/talkative_server/db_mongo.py:149 | any spelling of a name stored in lower case finds that user |
| MongoStore.CapitalizedNeverFound | talkative_server/talkative_server/db_mongo.py:149-159 | a user stored with a capital letter is found by no name at all |
| MongoStore.ProcMessageCounts | talkative_server/talkative_server/db_mongo.py:108-122 | after a message between two known users, the sender's `sent` and the receiver's `accepted` are one higher |
| SqlRows.One | client/db.py:189 | the index of the pair's row exactly when the pair has exactly one row; None for none or several |
| SqlRows.Disowned | client/db.py:189 | the table keeps its size: the removed row stays, without an owner |
| SqlRows.DisownedLinks | client/db.py:189 | disowning a matching row takes one off that pair's count and leaves any other pair's count alone |
| SqlRows.LinksZero | client/db.py:167-171 | a pair counts zero exactly when no row links the owner to that contact |
| SqlRows.AddedLinks | client/db.py:179 | a new row adds one to its own pair's count and nothing to any other pair's |
| SqlRows.LinksGrow | client/db.py:179 | rows added never lower a pair's count |
| SqlRows.AddThenDisownRestores | client/db.py:173-191 | after adding a row for a pair that had none, `.one()` finds that row, and deleting it gives every pair its count back, so the contact set is restored |
| SqlRows.NameIndex | client/db.py:157-159 | the first user whose name equals the asked one up to case, with none before it; None exactly when no name matches |
| SqlRows.NameIndexIgnoresCase | client/db.py:157-159 | two spellings that agree in lower case find the same user |
| SqlRows.NameIndexFirst | client/db.py:157-159 | the first matching user is the one found |
| SqlRows.StoredNameFound | client/db.py:157-159 | a stored name is found under any spelling, at that user or an earlier one |
| ClientStore.NewestFirst | client/db.py:265-268 | exactly as many messages as involve the user, each one a message that does |
| ClientStore.NewestHeadsHistory | client/db.py:265-268 | a newer message the user took part in goes in front of the history, which is otherwise unchanged |
| ClientStore.OthersLeaveHistory | client/db.py:265-268 | a message the user took no part in leaves the history as it was |
| ClientStore.Strangers | client/db.py:201-204 | exactly the ids in range that are neither the owner nor linked from it, in increasing order |
| ClientStore.Store.constructor | client/db.py:151-159 | the tables given |
| ClientStore.Store.HasContact | client/db.py:167-171 | raises exactly for a truthy non-string; True only when the name finds a user that a row links the owner to |
| ClientStore.Store.NotContacts | client/db.py:201-204 | exactly the other users that no row links the owner to, in id order |
| ClientStore.Store.ChatHistory | client/db.py:265-268 | the user's messages newest first, cut at `limit`: the first `limit` of the messages involving the user, back to front; at most `limit`, and exactly `limit` or all of them when there are fewer |
| ClientStore.Store.ChatHistoryOrder | client/db.py:265-268 | position `k` of the history holds the `k`-th newest message involving the user |
| ClientStore.NewestFirstReversesFilter | client/db.py:265-268 | the user's messages newest first are the reverse of their messages in creation order |
| ClientStore.Store.ChatHistoryByName | client/db.py:266-268 | a name is looked up first: at most `limit` messages, each involving the user the name finds; with no such user, only messages missing a sender or a receiver |
| ClientStore.Store.ByName | client/db.py:157-159 | the user whose name equals the given one, both lower-cased |
| ClientStore.Store.Sent | client/db.py:193-195 | the user's `mes_sent` history rows |
| ClientStore.Store.Accepted | client/db.py:197-199 | the user's `mes_accepted` history rows |
| ClientStore.Store.AddContact | client/db.py:173-181 | NotFoundUser for an unknown name; ContactExists exactly when the contact is there; otherwise exactly one new contact row and one `add_contact` history row, and no change on any other outcome |
| ClientStore.Store.DelContact | client/db.py:183-191 | NotFoundContact for an unknown name; ContactNotExists exactly when the user is not a contact; a raise when `.one()` finds several rows; otherwise that row loses its owner and one `del_contact` history row is added, and no change on any other outcome |
| ClientStore.Store.ProcMessage | client/db.py:228-231 | a raise exactly for a non-string name, after the sender's row on that path; otherwise one sent row for the sender and one accepted row for the receiver, so `sent` and `accepted` each grow by one |
| SqliteStore.Store.constructor | talkative_server/talkative_server/db_sqlite.py:27-40 | the stored tables, with every session row gone |
| SqliteStore.Store.HasContact | talkative_server/talkative_server/db_sqlite.py:305-321 | False for a falsy name; a raise exactly for a truthy non-string; True only when the name finds a user that a row links the owner to |
| SqliteStore.Store.ActiveByName | talkative_server/talkative_server/db_sqlite.py:444-448 | a session row of the looked-up user when there is one, and None exactly when no row belongs to the lookup's result |
| SqliteStore.Store.LoginUser | talkative_server/talkative_server/db_sqlite.py:273-289 | a raise with nothing written exactly when the key cannot be bound (a list or dict); otherwise an unknown name gets a new user with the placeholder password, the user's last login and key are set, one session row and one login row are added, and the name then finds that user |
| SqliteStore.Store.ByName | talkative_server/talkative_server/db_sqlite.py:261-264 | the user whose name equals the given one, both lower-cased |
| SqliteStore.Store.Sent | talkative_server/talkative_server/db_sqlite.py:351-354 | the user's `mes_sent` history rows |
| SqliteStore.Store.Accepted | talkative_server/talkative_server/db_sqlite.py:356-359 | the user's `mes_accepted` history rows |
| SqliteStore.Store.LogoutUser | talkative_server/talkative_server/db_sqlite.py:291-303 | every session row of the looked-up user is gone (rows without a user when the name is unknown), one logout row is added, and a known user has no sessions left |
| SqliteStore.Store.AddContact | talkative_server/talkative_server/db_sqlite.py:323-334 | a raise exactly for a non-string name; a known user that is not yet a contact gets exactly one contact row and one history row, and nothing changes otherwise; afterwards the name is a contact, and unique pairs stay unique |
| SqliteStore.Store.DelContact | talkative_server/talkative_server/db_sqlite.py:336-349 | a raise for a non-string name, or when `.one()` finds a duplicated pair; a known contact's row loses its owner and one history row is added, and nothing changes otherwise; with unique pairs it never raises on a string, pairs stay unique, and the name is no longer a contact |
| SqliteStore.Store.ProcMessage | talkative_server/talkative_server/db_sqlite.py:410-420 | a raise exactly for a non-string name, after the sender's row on that path; otherwise one sent and one accepted row, so the sender's `sent` and the receiver's `accepted` each grow by one |
| PhoneStore.LexLeTotal | talkative_phone/db.py:390 | Python's string order compares any two strings |
| PhoneStore.LexLeAntisymmetric | talkative_phone/db.py:390 | two strings each at most the other are equal |
| PhoneStore.PairName | talkative_phone/db.py:390 | the two names joined by `__`, in one order or the other |
| PhoneStore.PairNameSymmetric | talkative_phone/db.py:390 | both users of a personal chat compute the same chat name |
| PhoneStore.SoundPut | talkative_phone/db.py:390-392 | saving a chat whose members and owner are users keeps every chat's members and owner users |
| PhoneStore.NamedAfterPut | talkative_phone/db.py:603-629 | after a chat is saved at its place, its name finds it |
| PhoneStore.PutChat | talkative_phone/db.py:611-629 | the saved chat is found by its name at its place; every chat keeps its name; chats of other names are unchanged; the table grows by at most the new chat |
| PhoneStore.NamedFirst | talkative_phone/db.py:611 | the first chat of a name is the one the name finds |
| PhoneStore.PrunedKeeps | talkative_phone/db.py:631-635 | the deletions keep the chat a listed name finds |
| PhoneStore.Or | talkative_phone/db.py:639-641 | `x or default`: the value when truthy, else the default |
| PhoneStore.ItemNames | talkative_phone/db.py:631 | one name per item, in item order |
| PhoneStore.NamedIn | talkative_phone/db.py:611 | the index of a chat of that name, and None exactly when no chat has it |
| PhoneStore.Pruned | talkative_phone/db.py:631-635 | the same table with exactly the unlisted chats deleted |
| PhoneStore.Orphaned | talkative_phone/db.py:632-635 | exactly the messages of deleted chats lose their chat; every other message is unchanged |
| PhoneStore.Store.constructor | talkative_phone/db.py:310-334 | the users given and empty contact, history, chat and message tables |
| PhoneStore.Store.ChatNamed | talkative_phone/db.py:382 | the index of a chat of that name, and None exactly when no chat has it |
| PhoneStore.Store.ByName | talkative_phone/db.py:336-339 | the user whose name equals the given one, both lower-cased |
| PhoneStore.Store.Me | talkative_phone/db.py:381 | the configured user's row |
| PhoneStore.Store.ContactChat | talkative_phone/db.py:380-386 | as written: the chat named like the contact, else a crash for an unknown contact, else the personal chat shared with it |
| PhoneStore.Store.PersonalChat | talkative_phone/db.py:382 | a personal chat that both the contact and the configured user are members of |
| PhoneStore.Store.ContactChatChecked | talkative_phone/db.py:382 | the chat named like the contact first, else the personal chat shared with a known contact, else nothing |
| PhoneStore.Store.HasContact | talkative_phone/db.py:348-364 | True exactly when the name is non-empty, finds a user, and a row links the owner to that user |
| PhoneStore.Store.Other | talkative_phone/db.py:585-587 | a member other than the configured user, and None exactly when every member is the configured user |
| PhoneStore.Store.Saved | talkative_phone/db.py:658-665 | only the avatar can change; a personal chat with another member takes that member's avatar, and any other chat is unchanged |
| PhoneStore.Store.ChatUserName | talkative_phone/db.py:579-587 | a group chat's own name; for a personal chat, the other member's name, and None exactly when there is no other member |
| PhoneStore.Store.MessagesOf | talkative_phone/db.py:605 | exactly the messages of the chat, each one from the table |
| PhoneStore.Store.ChatHistory | talkative_phone/db.py:590-606 | at most `limit` messages: the first `limit` of the chat of the given name when it exists, else of the chat named by the sorted pair of the configured user and the name, and none when neither exists |
| PhoneStore.Store.OpenChat | talkative_phone/db.py:389-392 | exactly one new chat, saved, named and owned as given, with the two users as members; every member stays a user |
| PhoneStore.Store.AddContact | talkative_phone/db.py:366-394 | NotFoundUser exactly when neither the user nor a chat exists; ContactExists exactly for a present contact; a rollback when the pair name is taken; otherwise the contact row for a known user, one history row, and either the found chat or a new personal chat of both users, returned; afterwards the name is a contact, and unique pairs stay unique |
| PhoneStore.Store.Befriend | talkative_phone/db.py:387-394 | the contact row and history row, plus a personal chat when none was found, or nothing at all when its name is taken |
| PhoneStore.Store.Unlink | talkative_phone/db.py:417 | the only row of the pair loses its owner, and nothing changes when `.one()` raises; with unique pairs a linked pair never raises, stays unique, and leaves the pair unlinked |
| PhoneStore.Store.Forget | talkative_phone/db.py:416-419 | a contact's row loses its owner and a history row is added; with unique pairs it succeeds and the name is no longer a contact |
| PhoneStore.Store.LeaveChat | talkative_phone/db.py:420-422 | the configured user's first membership is removed and the chat saved, exactly when that user is a member; otherwise nothing changes |
| PhoneStore.Store.DelContact | talkative_phone/db.py:396-423 | NotFoundContact exactly when neither the user nor a chat exists; a raise, changing nothing, exactly for a duplicated pair; otherwise the contact's row loses its owner, one history row is added, and the configured user leaves the found chat (ValueError when not a member, after the rest); with unique pairs the name is no longer a contact |
| PhoneStore.Store.Resolved | talkative_phone/db.py:627 | one user per listed name, each the user that name finds; None exactly when some name is not a string or finds nobody |
| PhoneStore.Store.OwnerOf | talkative_phone/db.py:616 | a raise exactly for a truthy non-string owner; otherwise a stored user or none |
| PhoneStore.Store.ItemMerged | talkative_phone/db.py:610-629 | the item's chat is found by its name and becomes the merged chat, with exactly the listed members; other chats keep their names and chats of other names are unchanged; a raise for an unresolvable name or member |
| PhoneStore.Store.MergeAll | talkative_phone/db.py:610-629 | chats stay sound and the table never shrinks, until an item raises |
| PhoneStore.Store.ChatsMerge | talkative_phone/db.py:608-635 | a raise exactly when some item raises, with messages untouched and the table holding the items merged before it; otherwise the merged table with every unlisted chat deleted and their messages orphaned |
| PhoneStore.Store.MergeItems | talkative_phone/db.py:610-629 | the table is the merge of the items in order, and a raise exactly when some item raises, the items before it staying merged |
| PhoneStore.Store.MergedChat | talkative_phone/db.py:610-629 | the chat an item makes: its name and resolved members; the owner the item gives, else the stored one, else none; `is_personal` as given, else the stored value, and True for a new chat given None or nothing; a stored chat whose flag is truthy takes the other member's avatar, and so does a new chat whose item gives a truthy flag; any other chat, including a new one whose item gives None or nothing, keeps the item's avatar, else the stored one |
| PhoneStore.Store.Prune | talkative_phone/db.py:631-635 | exactly the unlisted chats are deleted, and only their messages lose their chat |
| PhoneStore.Store.MergeStopped | talkative_phone/db.py:610-629 | once an item raises, any longer list raises too |
| PhoneStore.Store.MergeKeepsItems | talkative_phone/db.py:610-629 | with distinct item names, every item's chat is there after the loop, with exactly its listed members |
| PhoneStore.Store.MergeSynchronises | talkative_phone/db.py:608-635 | after a merge that raised nothing, every chat left is named by an item, and every item's chat is there with exactly its listed members |
| PhoneStore.Store.SenderId | talkative_phone/db.py:640-643 | the user that the `from` field finds, else the configured user's |
| PhoneStore.Store.ReceiverId | talkative_phone/db.py:639-644 | the user that the `to` field finds, else the configured user's |
| PhoneStore.Store.ChatNameFor | talkative_phone/db.py:642-646 | the message's own chat name when given; otherwise the sorted pair name of sender and receiver, and None when either is unknown or a lookup raises |
| PhoneStore.Store.RepliesShareChat | talkative_phone/db.py:646 | a reply with sender and receiver swapped lands in the same chat |
| PhoneStore.Store.CreateMsg | talkative_phone/db.py:637-656 | a raise when the chat name cannot be made; otherwise exactly one message row in the chat of that name, with a new personal chat of both users when none exists (left without members, with a raise, when one is unknown) |
| PhoneStore.Store.NewMessage | talkative_phone/db.py:638-656 | the message row: the text given or the message's, its sender and receiver, no chat yet |
| PhoneStore.Store.Record | talkative_phone/db.py:647-656 | the message joins the named chat, or a new chat of the two users; without both users the new chat stays empty and nothing is stored |
| PhoneStore.Store.UnknownNameCrashes | talkative_phone/db.py:380-384 | as written, an unknown name with no chat of that name raises AttributeError before NotFoundUser or NotFoundContact |
| PhoneStore.Store.NotFoundUnreachable | talkative_phone/db.py:382-386 | whenever the lookup as written returns, the user or the chat exists, so the not-found check never fires |
| PhoneStore.Store.CheckedLookupAgrees | talkative_phone/db.py:382 | the checked lookup agrees with the written one whenever that one returns, and that one raises exactly for an unknown name with no chat |
| PhoneClient.Made | talkative_phone/async_core.py:219-222 | a class becomes an instance of that class, and an instance is attached as it is |
| PhoneClient.Registry | talkative_phone/async_core.py:382-393 | the twelve registrations of the module, all classes, each under a truthy name |
| PhoneClient.Instantiated | talkative_phone/async_core.py:214-222 | one attached pair per registration, under its name; the instances made from classes are pairwise distinct objects, even for one class under several names |
| PhoneClient.Field | talkative_phone/async_core.py:233-234 | `getattr(msg, key, default)`: the default on None, else the field |
| PhoneClient.Entry | talkative_phone/async_core.py:268 | an entry unpacks exactly when it is a two-item list whose first item is a name |
| PhoneClient.Entries | talkative_phone/async_core.py:268 | all entries unpacked, in order, exactly when every one of them unpacks |
| PhoneClient.Items | talkative_phone/async_core.py:268 | what `for` goes through: a list's items, a string's characters, the bytes of bytes; nothing exactly for an empty list, string, bytes or dict; None (TypeError) for anything else |
| PhoneClient.RepeatedNewNameFails | talkative_phone/async_core.py:266-277 | a name that no stored user has, listed twice, makes the whole list fail |
| PhoneClient.ListedUsersKnown | talkative_phone/async_core.py:266-277 | after the users are saved, every listed name finds a user |
| PhoneClient.ListedOrAdded | talkative_phone/async_core.py:268-275 | every listed name is a stored user's or one of the new rows' |
| PhoneClient.NamesCovered | talkative_phone/async_core.py:269-277 | a name in the stored or the new rows is found once they are saved together |
| PhoneClient.FailedPrefixStops | talkative_phone/async_core.py:268-277 | once the entries up to some point fail (an avatar that does not decode, a repeated new name), the whole list fails |
| PhoneClient.CommandsInPrefix | talkative_phone/async_core.py:90-94 | the commands of the first observers come first, in order, among the commands of all the observers |
| PhoneClient.PlacedExtends | talkative_phone/async_core.py:90-94 | later calls do not move the earlier ones, and the next call extends the record of where each call sits |
| PhoneClient.PlacedPrefix | talkative_phone/async_core.py:90-94 | a placement of the first observers' calls places a prefix of all of them, and all of them once every observer is covered |
| PhoneClient.ChatEntry | talkative_phone/async_core.py:315 | only a dict is a chat entry |
| PhoneClient.ChatEntries | talkative_phone/async_core.py:315 | the readable entries before the first unreadable one, in order; all of them exactly when all can be read |
| PhoneClient.Request | talkative_phone/async_core.py:280-283 | a request carrying its action and the configured user's name |
| PhoneClient.KeyRequest | talkative_phone/async_core.py:367-371 | a `pubkey_need` request from the configured user to the asked contact |
| PhoneClient.ClientTransport.constructor | talkative_phone/async_core.py:40-48 | the settings, the store and the account given, with no observers, signals or calls yet |
| PhoneClient.ClientTransport.Refresh | talkative_phone/async_core.py:126-140 | the account record is refreshed, and the configured user is stored exactly when the database did not have it, after which it finds that user |
| PhoneClient.ClientTransport.Attach | talkative_phone/async_core.py:96-100 | the observer joins the end of the event's list, and nothing else changes |
| PhoneClient.ClientTransport.Detach | talkative_phone/async_core.py:102-106 | the first occurrence of the observer leaves the event's list; ValueError, changing nothing, exactly when it is not there |
| PhoneClient.ClientTransport.WriteTo | talkative_phone/async_core.py:172-181 | the encoded and framed message is written, or a raise exactly when it cannot be framed |
| PhoneClient.ClientTransport.Ask | talkative_phone/async_core.py:280-284 | the request is written, then `send_<action>` follows exactly when the write did not raise |
| PhoneClient.ClientTransport.AuthUpdate | talkative_phone/async_core.py:231-250 | on 511, the digest reply is written and `done_511` follows, or a raise with nothing written without a record or a string nonce; on 212, the record turns active and `done_auth` follows, or a raise without a record; on 412, `fail_auth` with nothing written; only 212 changes the record |
| PhoneClient.ClientTransport.SaveUsers | talkative_phone/async_core.py:266-277 | the stored rows updated by the listed avatars plus one new row per unknown name, or nothing saved exactly when the list raises (an avatar that does not decode, a new name listed twice) |
| PhoneClient.ClientTransport.UsersUpdate | talkative_phone/async_core.py:264-284 | on 202, nothing written; a payload that cannot be iterated or an entry that does not unpack raises; otherwise the users are saved, a raise exactly when saving fails, and `done_get_users` follows; anything else sends the users request |
| PhoneClient.ClientTransport.AddContacts | talkative_phone/async_core.py:292-299 | every listed name ends up a contact of the configured user unless the loop raises; only ContactExists is caught |
| PhoneClient.ClientTransport.ContactsUpdate | talkative_phone/async_core.py:290-306 | on 202, nothing written; a payload that cannot be iterated raises with no contact added; otherwise the listed names are strings and every known one becomes a contact of the configured user, then `done_get_contacts`; an empty payload adds nothing; anything else sends the contacts request |
| PhoneClient.ClientTransport.ChatsUpdate | talkative_phone/async_core.py:312-322 | on 202, nothing written: a payload that cannot be iterated raises; the readable entries are merged, with a raise exactly when an entry is unreadable or its merge raises, the table then holding what was merged; otherwise the unlisted chats are pruned and `done_get_chats` follows; anything else sends the chats request |
| PhoneClient.ClientTransport.MessagesUpdate | talkative_phone/async_core.py:328-333 | always the messages request, then `send_get_messages` exactly when it was written |
| PhoneClient.ClientTransport.IncomingUpdate | talkative_phone/async_core.py:339-346 | an invalid message or one for another user changes nothing; a valid one is decrypted and stored, then `new_message` follows; one that does not decrypt raises, storing nothing |
| PhoneClient.ClientTransport.OutgoingUpdate | talkative_phone/async_core.py:352-354 | the message is written as it is, then `done_send_message`; without a message, a raise with nothing written |
| PhoneClient.ClientTransport.KeyUpdate | talkative_phone/async_core.py:360-379 | without a message and without a contact, nothing; without a message, the key request for the contact; on 202, the key is stored on the named user |
| PhoneClient.ClientTransport.Invoke | talkative_phone/async_core.py:90-94 | one command's `update`; the store stays sound and the read size unchanged; a Kivy object's `update` returns normally, notifies nothing and leaves the credentials, the wire and the users as they were |
| PhoneClient.ClientTransport.Visit | talkative_phone/async_core.py:90-94 | a Qt widget's `update.emit` raises TypeError (the thread is no QObject) and nothing else happens; a command's `update` is the next call recorded; a Kivy object's plain `update` is recorded, returns normally and changes nothing modelled |
| PhoneClient.ClientTransport.Reach | talkative_phone/async_core.py:90-94 | one more observer of the loop: the record of where each command's call sits is extended by it; a widget raises with nothing called and nothing else changed |
| PhoneClient.ClientTransport.Notify | talkative_phone/async_core.py:84-94 | a list or dict event raises TypeError with nothing changed; the event's commands are called in attachment order, all of them when nothing raised; no observer changes nothing; a first observer that is a widget raises with nothing changed |
| PhoneClient.ClientTransport.RunCommand | talkative_phone/async_core.py:108-113 | a message with neither action nor response reaches nobody and changes nothing; a list or dict key raises with nothing changed; otherwise the commands listed for its key are called in order, each at its recorded place, all of them when nothing raised |
| PhoneClient.ClientTransport.DetachKind | talkative_phone/async_core.py:208-212 | every instance of the class leaves the event's list |
| PhoneClient.WithoutKind | talkative_phone/async_core.py:208-212 | no command of the class is left |
| PhoneClient.DetachedKind | talkative_phone/async_core.py:208-212 | the event loses exactly the commands of the class, and every other event keeps its observers |
| PhoneClient.Router.constructor | talkative_phone/async_core.py:197-199 | no registrations, no source |
| PhoneClient.Router.RegCommand | talkative_phone/async_core.py:201-206 | a registration exactly for a truthy name; with a source, a new instance is attached at the end of the name's list, and nothing else changes |
| PhoneClient.Router.UnregCommand | talkative_phone/async_core.py:208-212 | the registrations under the name go; with a source, ValueError exactly when the command itself is not attached there |
| PhoneClient.Router.UnregCommandFixed | talkative_phone/async_core.py:208-212 | the registrations under the name and the instances of the class attached under it go |
| PhoneClient.Router.Init | talkative_phone/async_core.py:214-217 | every registration attached in order, from a fresh instance for each class |
| PhoneClient.Launch | talkative_phone/async_core.py:40-48 | the registrations of the module, then a new client whose observers are exactly those registrations' instances |
| PhoneClient.OnlyInstancesNamed | talkative_phone/async_core.py:219-222 | every observer attached for instances is an instance |
| PhoneClient.UnregAfterLaunchRaises | talkative_phone/async_core.py:208-222 | on a freshly launched client, unregistering any class under any name raises ValueError |
| PhoneClient.LaunchTableNamed | talkative_phone/async_core.py:382-393 | an event's observers on a launched client are the instances filed under its name |
| PhoneClient.CommandsNamedRun | talkative_phone/async_core.py:214-217 | the commands under a name are those of the registrations carrying it |
| PhoneClient.LaunchRun | talkative_phone/async_core.py:382-393 | an event's observers are those of the run of registrations under its name |
| PhoneClient.LaunchAuthWiring | talkative_phone/async_core.py:382 | a login reply reaches `ClientAuth` alone |
| PhoneClient.LaunchLoginWiring | talkative_phone/async_core.py:386-387 | `done_auth` triggers the users request, then the chats request |
| PhoneClient.LaunchChatsWiring | talkative_phone/async_core.py:388 | `done_get_chats` triggers the messages request |
| PhoneClient.LaunchNoticeWiring | talkative_phone/async_core.py:389-390 | the 205 and 206 notices trigger a new users request and a new chats request |
| PhoneClient.LaunchContactsUnhandled | talkative_phone/async_core.py:382-393 | no observer handles a `get_contacts` reply |
| PhoneClient.RegThenUnregRaises | talkative_phone/async_core.py:201-212 | registering a class on a running client and then unregistering it raises ValueError |
| PhoneClient.RegThenUnregFixedRestores | talkative_phone/async_core.py:201-212 | with the corrected unregistration, registering and then unregistering restores every event's observers |
| PhoneClient.Protocol.constructor | talkative_phone/async_core.py:120-146 | the read sizes start at the header, and `long_data` is not yet set |
| PhoneClient.Protocol.ConnectionMade | talkative_phone/async_core.py:124-146 | `long_data` stays unset exactly when the call raises; when no command observes `new_connect` first, the record is refreshed or created, one presence is written, and the call raises exactly when a widget observes it (its signal raises TypeError) or the presence cannot be framed |
| PhoneClient.Protocol.DataReceived | talkative_phone/async_core.py:146-166 | while `long_data` is unset, a chunk that is not a 4-byte header raises AttributeError and closes the transport, calling nothing and leaving the reader as it was; otherwise the receiver steps to its next state; an incomplete frame calls nothing; a completed payload shorter than 1024 bytes that is not UTF-8 raises in the debug line (a longer one is logged by its length only), and one the codec rejects raises, both with nothing called and the payload still buffered; a parsed one leaves the reader in the step's state and goes through `run_command` |
| PhoneClient.UsersSynced | talkative_phone/async_core.py:266-277 | the stored rows keep their count, names and keys; every new row is for a name no stored user has, it has no key, and no two new rows share a name |
| TalkativeContacts.Target | talkative_server/talkative_server/contacts/commands.py:34 | the connection filed under the key, and nothing when there is none |
| TalkativeContacts.ContactNames | talkative_server/talkative_server/contacts/commands.py:72 | one name per contact row of the owner, in row order; None exactly when such a row points at no user |
| TalkativeContacts.ContactNamesSnoc | talkative_server/talkative_server/contacts/commands.py:72 | a contact row added for the owner puts the contact's name at the end of the owner's list, and other owners' lists stay |
| TalkativeContacts.ContactNamesListed | talkative_server/talkative_server/contacts/commands.py:72 | every user the owner has a row for is on the list, and with unique names only those users are |
| TalkativeContacts.KeyReply | talkative_server/talkative_server/contacts/commands.py:88-93 | 511 with the key and the name as asked exactly when the user is known and has a truthy key; otherwise the error response without data |
| TalkativeContacts.KeyReplyIgnoresCase | talkative_server/talkative_server/contacts/commands.py:88-93 | two spellings of one name get the same response and the same key |
| TalkativeContacts.ListReply | talkative_server/talkative_server/contacts/commands.py:73 | a 202 reply carrying the names |
| TalkativeContacts.SendReply | talkative_server/talkative_server/contacts/commands.py:34 | no connection under the key raises on None; otherwise the write's own outcome, where exactly a written frame goes out |
| TalkativeContacts.Announce | talkative_server/talkative_server/contacts/commands.py:34-35 | the answer and, exactly when it went through and an event is given, one `update` per observer of that event |
| TalkativeContacts.AddFor | talkative_server/talkative_server/contacts/commands.py:31-35 | exactly one contact row when the named user is known and not yet a contact, after which it is a contact; the `add` observers are notified exactly when the answer went through |
| TalkativeContacts.Add | talkative_server/talkative_server/contacts/commands.py:25-39 | refused exactly for an unregistered sender; an unknown sender raises and nothing changes; with a truthy contact name, a contact row for a known new contact, the success answer and the `add` notification; with a falsy one, the error answer only; True is returned |
| TalkativeContacts.DelFor | talkative_server/talkative_server/contacts/commands.py:53-57 | with unique pairs the name is no longer a contact and pairs stay unique; the `remove` observers are notified exactly when the answer went through |
| TalkativeContacts.Del | talkative_server/talkative_server/contacts/commands.py:47-59 | refused exactly for an unregistered sender; an unknown sender raises and nothing changes; with a truthy contact name, the contact removed, the success answer and the notification; with a falsy one, nothing written and True returned |
| TalkativeContacts.ListContacts | talkative_server/talkative_server/contacts/commands.py:67-75 | refused exactly for an unregistered sender; an unknown sender raises with nothing written; otherwise a 202 answer with the contact names in stored order, and True exactly when it went through |
| TalkativeContacts.RequestKey | talkative_server/talkative_server/contacts/commands.py:83-96 | refused exactly for an unregistered sender; the sender's connection gets the key reply, and True exactly when it went through |
| TalkativeContacts.EditAvatar | talkative_server/talkative_server/contacts/commands.py:104-112 | refused exactly for an unregistered sender; an unknown sender or falsy data changes nothing; data that does not decode raises; otherwise the avatar becomes the decoded data and `service_update_lists` runs as written: the entries up to the first failing write are notified, it returns None exactly when none fails and raises otherwise, and an OSError deletes that name |
| TalkativeContacts.SaveAvatar | talkative_server/talkative_server/contacts/commands.py:110-112 | the avatar is stored, then the loop as written notifies the entries up to the first failing write, returns None exactly when none fails, and deletes the name on OSError |
| ServerContacts.Prompt | server/contacts/commands.py:17-18 | a request for the name, addressed back to the command, with no response code |
| ServerContacts.Status | server/contacts/commands.py:26-28 | a reply carrying the status code, and the text exactly when one is given |
| ServerContacts.RemoveFirstMultiset | server/contacts/commands.py:43-45 | deleting one row takes exactly that row out of the table's multiset |
| ServerContacts.AddThenDelete | server/contacts/commands.py:24-45 | adding a pair and then deleting it gives the same rows up to order, and the very same rows when the pair was new |
| ServerContacts.Names | server/contacts/commands.py:57-58 | one name per row of the owner, in row order; None exactly when such a row points at no user |
| ServerContacts.Tables.constructor | server/contacts/commands.py:10 | the tables given |
| ServerContacts.Tables.ByName | server/contacts/commands.py:20-21 | the user whose name is the given string, and nobody exactly when the value is no string or no user has it |
| ServerContacts.Tables.Add | server/contacts/commands.py:16-29 | the prompt without a parameter; with both users known, one new row and `201`, or `500` and no row when the database refuses; otherwise `400` and no row |
| ServerContacts.Tables.Del | server/contacts/commands.py:35-50 | the prompt without a parameter; with both users known, the pair's first row is deleted when there is one and `202`, or `500` and no change when the database refuses; otherwise `400`; rows are only ever taken away |
| ServerContacts.Tables.ContactList | server/contacts/commands.py:56-58 | a `202` reply whose `alert` holds the owner's contact names, and a raise exactly for an unknown user or a dangling row |
| ServerContacts.AddedListed | server/contacts/commands.py:24-58 | a row added for the owner puts its contact's name at the end of the owner's list |
| ServerContacts.OtherOwnersUntouched | server/contacts/commands.py:24-58 | a row added for one owner leaves every other owner's list as it was |

## Left out

- Sockets, asyncio, threads, `select` and locks. Each connection is an object with an inbound queue of chunks or events and an outbound byte buffer. The locks (`database_lock`, `db_lock`, `sock_lock`) and the interleavings they guard are not modelled.
- `connection_lost` and `close` in the asyncio cores: they only resolve the loop's end-of-connection future, which belongs to the event loop.
- The handlers `UserListCommand`, `AddContactCommand`, `DelContactCommand`, `ListContactsCommand` and `EditAvatar` of talkative_server/talkative_server/async_core.py are not modelled: where the server's dispatch (`AsyncServer.Server.Invoke`) would reach one, it returns normally. The threaded server's contact commands, which do the same work, are modelled in `TalkativeContacts`.
- AsyncServer: the loop's transport table is a fixed sequence for the length of a call.
- AsyncServer: the server is modelled over `MongoStore`, because async_core.py calls the engine-specific `.objects` (talkative_server/talkative_server/async_core.py:187 and :318). With the SQLite engine the configuration selects, two results would differ: `by_name` there lower-cases both sides, so a capitalised stored name is found (`MongoStore.CapitalizedNeverFound` states the MongoDB side), and `login_user` of an unknown name creates the user instead of raising. `SqliteStore` models that engine on its own.
- The `'new_connect'`, `'init_db'`, `'fail'` and `'done_511'` notifications reach GUI objects only. In the server (a `QThread`) and the socket client a widget's signal is recorded, and what the widget then does is not modelled. In the phone client the thread is a plain `threading.Thread`, so `self.update.emit` raises TypeError for a Qt object (talkative_phone/async_core.py:91), and `PhoneClient.ClientTransport.Visit` raises for a widget. The phone's own GUI is Kivy (`EventServerMixin` in talkative_phone/main.py, which is not part of this model); its objects are not QObjects, so their plain `update(**kwargs)` is called (talkative_phone/async_core.py:93). They are the observer kind `Gui` of `PhoneClient.Kind`, whose `update` returns normally. The server's constructor announces `new_connect` (`AsyncServer.Protocol.constructor`).
- PhoneClient.Protocol.ConnectionMade: its contract states the outcome only when every observer of `new_connect` is a widget. A command observer would run its `update`, which the other members state.
- PhoneClient.ClientTransport.Invoke: its contract states only the invariants it keeps, and the `Gui` case. What each command does is stated by that command's own method. What a Kivy object's handler does with the event (switching screens, toasts, scheduling the app's stop) is GUI work and is not modelled, nor are calls it makes back into the client.
- PhoneClient.ClientTransport.Notify: nested notifications are bounded by `fuel`, which stands for the interpreter's recursion limit. Past it the call raises, as RecursionError does. The actual limit is not modelled.
- PhoneClient.ClientTransport.Visit: a widget receives the signal's event. The Qt payload dictionary is not modelled.
- `GetContacts` of talkative_phone/async_core.py is modelled, but the module never registers it. `PhoneClient.LaunchContactsUnhandled` states that.
- The phone's own JIM message module is not part of this model. The phone client uses the `Envelope` of client/jim_mes/jim.py, whose fields and constructors it relies on.
- The `Chat.is_personal` column defaults to True. For a new chat whose item gives None or nothing the model stores True, as the column default does on insert; `Chat.save` sees the None before that, so the chat keeps the item's avatar (`PhoneStore.Store.MergedChat`). A value of another type (a number, a string) is stored as given, and SQLAlchemy's coercion of it to a boolean is not modelled.
- ThreadServer.Server.ServiceUpdateLists: the 205 notice is built once, when the server is made (`notice`), instead of once per write. The clock is a fixed function, so every build gives the same message; the time a real clock would give each write is not modelled.
- PhoneStore.Store.MergeAll: when an item raises part way through `setattr`, the attributes set before the raise are dropped, not kept. The call is treated as failing as a whole from that item on.
- PhoneClient.ClientTransport.SaveUsers: an avatar that does not decode discards the whole list, as `save_all` is never reached. The pending changes to stored rows are discarded too.
- Password hashing (`PasswordType(pbkdf2_sha512)`) is left out. Passwords are stored values.
- Query results are taken in row order, which is id order. The only ordering clause that reaches a modelled result is `chat_hiltory`'s newest-first order by creation time, and messages are stored in creation order. The `order_by='Contact.contact_id'` on `owner.contacts` affects no modelled result.
- AsyncServer.Server.Relay: looks up the destination with the corrected lookup (`GetUserTr`, see Findings). As written, the lookup raises AttributeError for a registered destination without a session (`AsyncServer.OfflineDestinationRaises` shows this for the lookup itself), and the event loop then closes the sender's connection; the model drops the message and the connection stays open. Through `MessageCommand` this is reachable only when the message's `user` field names a logged-in account: `login_required_db` checks the `user` account, else the `to` account, so an ordinary message to an offline `to` is refused by the guard first. The same holds for `AsyncServer.Server.MessageUpdate` and `AsyncServer.Server.Relayed`, which go through `Relay`.
- AsyncServer.Server.MessageUpdate: relays through `Relay`, so an admitted message (its `user` account logged in) to a registered destination without a session returns normally, where the source raises AttributeError (see the `Relay` line).
- AsyncServer.Server.Relayed: gives "nothing delivered" for a registered user without a session, where the source raises AttributeError (see the `Relay` line).
- PhoneStore.Store.AddContact: looks up the chat with the corrected lookup (`ContactChatChecked`, see Findings). As written, a name with neither a user nor a chat raises AttributeError at `cont.get_chats()` (talkative_phone/db.py:382, `PhoneStore.Store.UnknownNameCrashes`), which the caller does not catch; the model returns NotFoundUser and changes nothing.
- PhoneStore.Store.DelContact: the same corrected lookup (talkative_phone/db.py:413). As written, a name with neither a user nor a chat raises AttributeError; the model returns NotFoundContact and changes nothing.
- ClientStore.Store.ChatHistory: assumes distinct creation times. `created` defaults to the database's `now()` (client/db.py:74), which SQLite keeps to the second, and `chat_hiltory` orders by `desc(created)` alone (client/db.py:268). Messages stored in the same second tie, and SQLite may return ties in any order; the model puts the later-stored one first, so `ClientStore.Store.ChatHistoryOrder` states one admissible order, not necessarily the program's.
- Text.Lower: folds ASCII letters only. Python's `str.lower` also folds non-ASCII letters, which user names here are not expected to contain.
- Convert.BaseName: paths are POSIX paths, split on `/` only; Windows paths (backslashes, drive letters) are not modelled.
- JSON, YAML and CSV, and the `Converter` bodies that call them, are left out. `Converter.reads`, `dumps` and `convert_file_to` add only the library calls to the class resolution that `define_convert` models.
- HMAC, base64, PBKDF2 and RSA decryption are parameters. Only the equality of their results matters. `b64decode` returns None where Python raises `binascii.Error`.
- The clock (`time.strftime`, `datetime.now`), the nonce (`os.urandom`) and peer addresses are parameters.
- A database error that the commands catch (`except Exception`) is the parameter `refused`.
- server/db.py does not define `User.by_name`, `User.contacts` or `Contact.get_by_owner_contact`, which server/contacts/commands.py calls. Its `Contact` has only the `owner_id` and `contact_id` columns (server/db.py:129-132), not the `owner` and `contact` relationships that `Contact.create(owner=..., contact=...)` and `i.contact.username` use. `ServerContacts` gives all of these their evident meaning: an exact name lookup, the owner's rows, the first row of the pair, and rows that link the two users.
- Envelope.Get: the instance attributes `conv`, `delimiter` and `required` and the class's own attributes (its methods) always exist, so they shadow fields of the same names (client/jim_mes/jim.py:15-23, 37-40). The model's `attrs` holds only the attributes assigned after construction. No modelled read asks for one of those names, and `delimiter` is popped from the keyword arguments before they become fields.
- talkative_server/talkative_server/commands.py is not part of this model. The threaded servers' `process` takes as a parameter which messages make the command table raise.
- server/core.py `process` calls `main_commands.run(self, mes, ...)`, while `Comander.run` of server/commands.py takes `(request, ...)`. `process` is modelled with the same parameter, and `ServerCommands` on its own.
- server/core.py `service_update_lists` is outside the modelled core. The talkative server's version is modelled, with its finding.
- Logging calls, `print`, the GUIs and process start-up are left out. Two kinds of log argument can raise, and both are modelled:
  - `client.getpeername()` in the read handlers (server/core.py:149, talkative_server/talkative_server/core.py:177), modelled by `Net.Socket.PeerName`;
  - the debug line's decode of received bytes (server/core.py:154, talkative_server/talkative_server/core.py:182, talkative_server/talkative_server/async_core.py:177, talkative_client/talkative_client/async_core.py:137, talkative_phone/async_core.py:160 for payloads under 1024 bytes), modelled by `Utf8.Valid`. The f-string is built even when debug logging is off.
  Other log calls have no effect on the modelled state.
- The decode uses the `encoding` setting, which defaults to `utf-8`; the servers and the talkative client take an `--encoding` option to change it. The model fixes it at UTF-8, the encoding `bytes(msg)` always uses (client/jim_mes/jim.py:25-26). A server started with another encoding would reject other payloads in the debug line; that case is not modelled.
- Envelope.RoundTrips: the codec's encoder is an abstract function whose output is required to be well-formed UTF-8, as `str.encode()`'s is; `Utf8.Encode` is a concrete encoder proved to meet that requirement. The parser `loads` stays abstract: a payload that is UTF-8 but not JSON is rejected only when the codec says so.
- SocketClient.Client.SendMessage: `sock.send` may send only a prefix of the frame (talkative_client/talkative_client/core.py:53); the model sends all of it, because the handshake functions that `connect` is specified by use the same `Transmit`.
- Attach and Detach with a list or dict event are not modelled: their `dict.get` would raise TypeError, but every registration in the modelled modules names its event with a string.
- PhoneClient.Items: a non-empty dict payload, which Python iterates by its keys in insertion order, is taken as raising. The model's dict has no key order.
- PhoneClient.Entry: a two-character string entry, which Python unpacks into two one-character strings, is treated as one that does not unpack.
- SqliteStore: the session state after a failed commit (a rollback is needed before the next query) is not modelled; each method starts from committed state.

## Findings

| source | as written | input that shows it | evidently intended | confidence | as-written member | corrected member |
|---|---|---|---|---|---|---|
| talkative_server/talkative_server/async_core.py:166-182 | every received chunk of exactly 4 bytes is taken as a length header, also when it is a piece of a payload | a payload of `def_size + 4` bytes read in full reads: its last 4-byte piece re-announces a length, and the payload is never dispatched | only the read that follows a completed frame is a header | not executed | Framing.FourBytePieceIsTakenAsHeader | Framing.FixedReaderDeliversFrames |
| talkative_client/talkative_client/async_core.py:126-140 | after a header the read size is set to `def_size`, not to the announced length | two frames already waiting: the second read takes the first payload together with the second frame, header included | the read size is capped at the announced length | not executed | Framing.UncappedReadSwallowsNextFrame | Framing.FixedReaderDeliversFrames |
| talkative_server/talkative_server/async_core.py:214-221 | `v is self` compares a transport with the protocol, so the sender's own transport is not skipped; `act_user.ip_addr` is read with no check for a missing session | a message whose `user` field names a logged-in account and whose `to` names a registered user without a session passes `login_required_db` and then raises AttributeError in the lookup, where the caller drops it when no transport is found | no transport for a user without a session | not executed | AsyncServer.OfflineDestinationRaises | AsyncServer.Server.GetUserTr |
| talkative_server/talkative_server/core.py:241-248 | on OSError the name is deleted from `self.names` while iterating over it | two logged-in users, the first one's socket closed: RuntimeError before the second user is told to refresh | every user is notified; the failed names are deleted after the loop | not executed | ThreadServer.ClosedFirstSocket | ThreadServer.ClosedFirstSocketFixed |
| talkative_phone/async_core.py:208-222 | `unreg_command` detaches the class, while `init_cmd` attached an instance of it | any class registered on a launched client, then unregistered: ValueError | the instances attached under the name are detached | not executed | PhoneClient.UnregAfterLaunchRaises | PhoneClient.RegThenUnregFixedRestores |
| talkative_phone/db.py:380-386 | the chat lookup calls `cont.get_chats()` before the `not cont and not chat` check | `add_contact` or `del_contact` of a name with no user and no chat: AttributeError, not NotFoundUser or NotFoundContact | the missing user is checked before its chats are read | not executed | PhoneStore.Store.UnknownNameCrashes | PhoneStore.Store.CheckedLookupAgrees |
