/** The relay payload: the plaintext "<id>|<state>" that every datagram carries
    before encryption. */
module Messages {
  import opened Outcomes
  import Guids

  /** The state a record holds from the Client constructor until its first message. */
  const Connected: string := "CONNECTED"

  /** The state announced to the remaining peers when a client goes away. */
  const Disconnected: string := "DISCONNECTED"

  /** `guid.ToString() + "|" + state` */
  function Payload(id: Guids.Id, state: string): (t: string)
    ensures |t| == 37 + |state| && t[36] == '|' && t[37..] == state
  {
    Guids.Text(id) + "|" + state
  }

  /** How a receiver splits a payload: the identifier text is the 36 characters
      before the first '|', the state is everything after it (it may hold '|'). */
  function ParsePayload(t: string): (r: Option<(Guids.Id, string)>)
  {
    if |t| < 37 || t[36] != '|' then None
    else match Guids.Parse(t[..36])
      case None => None
      case Some(id) => Some((id, t[37..]))
  }

  /** A payload names its sender and its state unambiguously. */
  lemma ParsePayloadOfPayload(id: Guids.Id, state: string)
    ensures ParsePayload(Payload(id, state)) == Some((id, state))
  {
    assert Payload(id, state)[..36] == Guids.Text(id);
    Guids.ParseText(id);
  }

  /** Every payload ParsePayload accepts is the Payload of what it returns. */
  lemma PayloadOfParsePayload(t: string)
    requires ParsePayload(t).Some?
    ensures Payload(ParsePayload(t).value.0, ParsePayload(t).value.1) == t
  {
    Guids.TextOfParse(t[..36]);
    assert t == t[..36] + "|" + t[37..];
  }

  /** Two payloads are equal only when sender and state are. */
  lemma PayloadInjective(a: Guids.Id, s: string, b: Guids.Id, u: string)
    requires Payload(a, s) == Payload(b, u)
    ensures a == b && s == u
  {
    ParsePayloadOfPayload(a, s);
    ParsePayloadOfPayload(b, u);
  }
}
