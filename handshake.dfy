/**
 * The two halves of the talkative login put together: the asyncio server's
 * 511 challenge (talkative_server/talkative_server/async_core.py, `Presence`)
 * reaches the client's `ClientAuth`, the client answers with the HMAC of the
 * nonce under its derived key, and the server's `Auth` grants that answer
 * when the two keys agree.
 */
module Handshake {
  import opened Wrappers
  import opened Envelope
  import opened Secrets
  import opened Dispatch
  import opened SocketClient
  import MongoStore
  import AsyncServer
  import AsyncClient

  /** The challenge carries the action `auth`, so a freshly launched client hands it to `ClientAuth` alone. */
  lemma ChallengeGoesToClientAuth(nonce: string, stamp: string -> string)
    ensures var m := AsyncServer.AuthChallenge(nonce, stamp);
      CalledFor(AttachAll(map[], AsyncClient.Registry()), m) == [(AsyncClient.AuthCmd, Str(AUTH))] &&
      Get(m, RESPONSE) == Int(511) && Get(m, DATA) == Str(nonce)
  {
    AsyncClient.RegistryDispatch(AsyncServer.AuthChallenge(nonce, stamp));
  }

  /**
   * The answer `ClientAuth` (or the blocking `connect`) writes to the
   * challenge of a presence is granted, with the public key of the presence,
   * when the client record names the same stored user and holds that user's
   * key, and the challenge digest is not empty.
   */
  lemma ClientAnswerIsGranted(store: MongoStore.Store, auth: AsyncServer.Pending, presence: Message, nonce: string,
                              a: Account, cfg: Config, stamp: string -> string)
    requires Base64RoundTrips(cfg.crypto)
    requires AsyncServer.PresenceChallenge(store, presence, nonce, cfg.crypto, stamp).entry.Some?
    requires var u := store.ByName(UserAccountName(presence)).value;
      store.ByName(Str(a.username)) == Some(u) && a.authKey == store.users[u].authKey &&
      cfg.crypto.hmac(a.authKey, cfg.crypto.utf8(nonce)) != []
    ensures var c := AsyncServer.PresenceChallenge(store, presence, nonce, cfg.crypto, stamp);
      var answer := AuthReply(Get(c.reply, DATA).s, a, cfg);
      AsyncServer.AuthVerdict(store, auth[c.entry.value.0 := c.entry.value.1], answer, cfg.crypto).0 ==
        AsyncServer.Granted(store.ByName(UserAccountName(presence)).value, Get(presence, PUBLIC_KEY))
  {
    var c := AsyncServer.PresenceChallenge(store, presence, nonce, cfg.crypto, stamp);
    assert Get(c.reply, DATA) == Str(nonce);
    var answer := AuthReply(nonce, a, cfg);
    assert UserAccountName(answer) == Str(a.username);
    AsyncServer.ChallengeAnswered(store, auth, presence, answer, nonce, cfg.crypto, stamp);
  }

  /** A client whose key differs from the stored one in its digest of the nonce is refused. */
  lemma WrongKeyIsDenied(store: MongoStore.Store, auth: AsyncServer.Pending, presence: Message, nonce: string,
                         a: Account, cfg: Config, stamp: string -> string)
    requires Base64RoundTrips(cfg.crypto)
    requires AsyncServer.PresenceChallenge(store, presence, nonce, cfg.crypto, stamp).entry.Some?
    requires var u := store.ByName(UserAccountName(presence)).value;
      store.ByName(Str(a.username)) == Some(u) &&
      cfg.crypto.hmac(a.authKey, cfg.crypto.utf8(nonce)) != cfg.crypto.hmac(store.users[u].authKey, cfg.crypto.utf8(nonce))
    ensures var c := AsyncServer.PresenceChallenge(store, presence, nonce, cfg.crypto, stamp);
      var answer := AuthReply(Get(c.reply, DATA).s, a, cfg);
      AsyncServer.AuthVerdict(store, auth[c.entry.value.0 := c.entry.value.1], answer, cfg.crypto).0.Denied?
  {
    var c := AsyncServer.PresenceChallenge(store, presence, nonce, cfg.crypto, stamp);
    assert Get(c.reply, DATA) == Str(nonce);
    var answer := AuthReply(nonce, a, cfg);
    assert UserAccountName(answer) == Str(a.username);
    var d := cfg.crypto.hmac(a.authKey, cfg.crypto.utf8(nonce));
    assert cfg.crypto.unb64(cfg.crypto.b64(d)) == Some(d);
  }
}
