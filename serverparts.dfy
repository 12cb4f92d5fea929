/**
 * What the threaded servers of both snapshots (server/core.py and
 * talkative_server/talkative_server/core.py) share: the outcomes of their
 * reads and writes, the presence tagging of queued messages, the observer
 * calls of `notify`, and how far `process` gets through the queue.
 */
module ServerParts {
  import opened Envelope
  import opened Net

  /** What `read_data` returns: None, a message, or an exception escaping it. */
  datatype ReadResult = ReadNone | ReadMsg(m: Message) | ReadRaised

  /** What `write_client_data` ends with: written, the client dropped after a broken pipe, an OSError, or another exception. */
  datatype WriteOutcome = Written | Dropped | OsFailure | WriteRaised

  /** `mes.client = client` for a presence; any other message is queued as read. */
  function WithClient(m: Message, client: Socket): (r: Message)
    ensures r.raw == m.raw && r.delimiter == m.delimiter
    ensures Get(m, ACTION) == Str(PRESENCE) ==> Get(r, "client") == Ref(client.id) && r.attrs.Keys == m.attrs.Keys + {"client"}
    ensures Get(m, ACTION) != Str(PRESENCE) ==> r == m
    ensures forall k :: k != "client" ==> Get(r, k) == Get(m, k)
  {
    if Get(m, ACTION) == Str(PRESENCE) then m.(attrs := m.attrs["client" := Ref(client.id)]) else m
  }

  /** The `update` calls `notify` makes: each observer with the event, in order. */
  function Calls(obs: seq<nat>, event: Value): (r: seq<(nat, Value)>)
    ensures |r| == |obs| && forall i :: 0 <= i < |obs| ==> r[i] == (obs[i], event)
  {
    seq(|obs|, i requires 0 <= i < |obs| => (obs[i], event))
  }

  /** The number of queued messages `process` hands to the command table before one raises (that one included). */
  function Handled(ms: seq<Message>, raises: Message -> bool): (k: nat)
    ensures k <= |ms|
    ensures forall i :: 0 <= i < k - 1 ==> !raises(ms[i])
    ensures k < |ms| ==> k > 0 && raises(ms[k - 1])
  {
    if ms == [] then 0
    else if raises(ms[0]) then 1
    else 1 + Handled(ms[1..], raises)
  }

  /** `process` stops right after the first raising message. */
  lemma {:induction false} HandledAt(ms: seq<Message>, raises: Message -> bool, i: nat)
    requires i < |ms| && raises(ms[i])
    requires forall j :: 0 <= j < i ==> !raises(ms[j])
    ensures Handled(ms, raises) == i + 1
  {
    if i > 0 {
      HandledAt(ms[1..], raises, i - 1);
    }
  }

  /** With no raising message, `process` hands over the whole queue. */
  lemma {:induction false} HandledAll(ms: seq<Message>, raises: Message -> bool)
    requires forall j :: 0 <= j < |ms| ==> !raises(ms[j])
    ensures Handled(ms, raises) == |ms|
  {
    if ms != [] {
      HandledAll(ms[1..], raises);
    }
  }
}
