/** The client registry (`Dictionary<Guid, Client> clients`) and the three
    handlers that change it and fan out datagrams: OnConnected, OnDataReceived
    and OnDisconnected. The registry lock is not modelled: every handler runs
    its locked part and its fan-out without another worker in between, but a
    fan-out looks every snapshot id up in the registry as it then is, so a peer
    that has gone away by then is skipped. */
module Relay {
  import opened Outcomes
  import opened Bytes
  import opened Guids
  import opened Messages

  /** An IPAddress, treated as opaque. */
  type Address = seq<byte>

  /** IPEndPoint.MaxPort */
  const MaxPort: int := 65535

  datatype Endpoint = Endpoint(address: Address, port: int)

  /** One Client object: where its datagrams go, its AES session, its last state. */
  datatype Record = Record(endpoint: Endpoint, iv: seq<byte>, key: seq<byte>, state: string)

  /** One UDP datagram: recipient, destination, plaintext, and the IV and key it
      is encrypted under. The ciphertext itself is Encrypt(text, iv, key). */
  datatype Datagram = Datagram(to: Id, endpoint: Endpoint, text: string, iv: seq<byte>, key: seq<byte>)

  /** What one SendTo does: sends the whole datagram, sends fewer bytes (the
      handler logs it and carries on), or throws a SocketException. */
  datatype SendOutcome = Delivered | Short | Raised

  /** The network's answer to each datagram. */
  type Network = Datagram -> SendOutcome

  /** new Client(address, port, iv, key): the IPEndPoint constructor rejects a
      port outside 0..65535; the state starts as "CONNECTED". */
  function NewRecord(address: Address, port: int, iv: seq<byte>, key: seq<byte>): (r: Result<Record>)
    ensures r.Ok? <==> 0 <= port <= MaxPort
    ensures r.Err? ==> r.fault == PortOutOfRange
    ensures r.Ok? ==> r.value.endpoint == Endpoint(address, port) && r.value.iv == iv && r.value.key == key
    ensures r.Ok? ==> r.value.state == Connected
  {
    if 0 <= port <= MaxPort then Ok(Record(Endpoint(address, port), iv, key, Connected)) else Err(PortOutOfRange)
  }

  /** A record as the worker creates it: a 16-byte IV, a 32-byte key, a valid port. */
  predicate WellFormed(r: Record)
  {
    |r.iv| == IvLength && |r.key| == KeyLength && 0 <= r.endpoint.port <= MaxPort
  }

  /** A datagram Encrypt and SendTo accept: a 16-byte IV, a 32-byte key, a valid port. */
  predicate Encryptable(d: Datagram)
  {
    |d.iv| == IvLength && |d.key| == KeyLength && 0 <= d.endpoint.port <= MaxPort
  }

  /** The datagram for `text` sent to client `to` whose record is `r`: to its
      endpoint, encrypted under its own IV and key. */
  function ToClient(to: Id, r: Record, text: string): Datagram
  {
    Datagram(to, r.endpoint, text, r.iv, r.key)
  }

  /** `d` goes to a registered client, at that client's endpoint and under that client's session. */
  predicate SealedFor(d: Datagram, m: map<Id, Record>)
  {
    d.to in m && d.endpoint == m[d.to].endpoint && d.iv == m[d.to].iv && d.key == m[d.to].key
  }

  predicate Distinct(ids: seq<Id>)
  {
    forall i, j :: 0 <= i < j < |ids| ==> ids[i] != ids[j]
  }

  function Occurrences(ids: seq<Id>, g: Id): nat
  {
    if ids == [] then 0 else (if ids[0] == g then 1 else 0) + Occurrences(ids[1..], g)
  }

  /** How many of `ds` are addressed to `g`. */
  function Addressed(ds: seq<Datagram>, g: Id): nat
  {
    if ds == [] then 0 else (if ds[0].to == g then 1 else 0) + Addressed(ds[1..], g)
  }

  /** How many of `ds` are addressed to `g` and carry `text`. */
  function Heard(ds: seq<Datagram>, g: Id, text: string): nat
  {
    if ds == [] then 0 else (if ds[0].to == g && ds[0].text == text then 1 else 0) + Heard(ds[1..], g, text)
  }

  /** How many of `ids` are still registered in `m`. */
  function Present(ids: seq<Id>, m: map<Id, Record>): nat
  {
    if ids == [] then 0 else (if ids[0] in m then 1 else 0) + Present(ids[1..], m)
  }

  /** The snapshot without the sender: the `!_guid.Equals(guid)` test of OnDataReceived. */
  function Others(ids: seq<Id>, g: Id): seq<Id>
  {
    if ids == [] then [] else (if ids[0] == g then [] else [ids[0]]) + Others(ids[1..], g)
  }

  // ---------------------------------------------------------------------------
  // The datagrams a fan-out plans, in the order it sends them.

  /** OnDataReceived and OnDisconnected: `text` to every id of `ids` that is still
      registered in `m`. */
  function Fanout(ids: seq<Id>, m: map<Id, Record>, text: string): seq<Datagram>
  {
    if ids == [] then []
    else (if ids[0] in m then [ToClient(ids[0], m[ids[0]], text)] else []) + Fanout(ids[1..], m, text)
  }

  /** The two datagrams OnConnected sends for peer `p` with record `r` when `id`
      with record `rec` joins: the peer's state to the newcomer, then the
      newcomer's state to the peer. */
  function Introduction(id: Id, rec: Record, p: Id, r: Record): seq<Datagram>
  {
    [ToClient(id, rec, Payload(p, r.state)), ToClient(p, r, Payload(id, rec.state))]
  }

  /** OnConnected: the introduction pair for every id of `ids` still registered in `m`. */
  function Introductions(ids: seq<Id>, m: map<Id, Record>, id: Id, rec: Record): seq<Datagram>
  {
    if ids == [] then []
    else (if ids[0] in m then Introduction(id, rec, ids[0], m[ids[0]]) else []) + Introductions(ids[1..], m, id, rec)
  }

  // ---------------------------------------------------------------------------
  // Sending: a short send is only logged, a raised exception ends the loop.

  /** The datagrams actually handed to SendTo when the fan-out plans `planned`:
      all of them, or those up to and including the first whose SendTo throws. */
  function Attempted(planned: seq<Datagram>, net: Network): (sent: seq<Datagram>)
  {
    if planned == [] then []
    else if net(planned[0]) == Raised then [planned[0]]
    else [planned[0]] + Attempted(planned[1..], net)
  }

  predicate Raises(planned: seq<Datagram>, net: Network)
  {
    exists i :: 0 <= i < |planned| && net(planned[i]) == Raised
  }

  /** Attempted stops exactly at the first exception: it is a prefix of the plan,
      no datagram before its last one raised, and it is the whole plan unless
      some datagram raised. */
  lemma {:induction false} AttemptedPrefix(planned: seq<Datagram>, net: Network)
    ensures var sent := Attempted(planned, net);
      && sent <= planned
      && (forall i :: 0 <= i < |sent| - 1 ==> net(sent[i]) != Raised)
      && (Raises(planned, net) <==> sent != [] && net(sent[|sent| - 1]) == Raised)
      && (!Raises(planned, net) ==> sent == planned)
  {
    if planned != [] && net(planned[0]) != Raised {
      AttemptedPrefix(planned[1..], net);
      var rest := Attempted(planned[1..], net);
      assert Raises(planned, net) <==> Raises(planned[1..], net) by {
        if Raises(planned, net) {
          var i :| 0 <= i < |planned| && net(planned[i]) == Raised;
          assert net(planned[1..][i - 1]) == Raised;
        }
        if Raises(planned[1..], net) {
          var i :| 0 <= i < |planned[1..]| && net(planned[1..][i]) == Raised;
          assert net(planned[i + 1]) == Raised;
        }
      }
    } else if planned != [] {
      assert net(planned[0]) == Raised;
    }
  }

  /** A plan that runs through a first part without an exception sends all of it
      and then carries on with the rest. */
  lemma {:induction false} AttemptedAppend(a: seq<Datagram>, b: seq<Datagram>, net: Network)
    requires !Raises(a, net)
    ensures Attempted(a + b, net) == a + Attempted(b, net)
    ensures Raises(a + b, net) <==> Raises(b, net)
  {
    if a != [] {
      assert net(a[0]) != Raised;
      AttemptedAppend(a[1..], b, net);
      assert (a + b)[1..] == a[1..] + b;
    } else {
      assert a + b == b;
    }
    if Raises(a + b, net) {
      var i :| 0 <= i < |a + b| && net((a + b)[i]) == Raised;
      assert i >= |a|;
      assert net(b[i - |a|]) == Raised;
    }
    if Raises(b, net) {
      var i :| 0 <= i < |b| && net(b[i]) == Raised;
      assert net((a + b)[i + |a|]) == Raised;
    }
  }

  // ---------------------------------------------------------------------------
  // Concatenation lemmas: the handlers build their plans one snapshot id at a time.

  lemma {:induction false} FanoutAppend(a: seq<Id>, b: seq<Id>, m: map<Id, Record>, text: string)
    ensures Fanout(a + b, m, text) == Fanout(a, m, text) + Fanout(b, m, text)
  {
    if a == [] {
      assert a + b == b;
    } else {
      assert (a + b)[1..] == a[1..] + b;
      FanoutAppend(a[1..], b, m, text);
    }
  }

  lemma {:induction false} OthersAppend(a: seq<Id>, b: seq<Id>, g: Id)
    ensures Others(a + b, g) == Others(a, g) + Others(b, g)
  {
    if a == [] {
      assert a + b == b;
    } else {
      assert (a + b)[1..] == a[1..] + b;
      OthersAppend(a[1..], b, g);
    }
  }

  lemma {:induction false} IntroductionsAppend(a: seq<Id>, b: seq<Id>, m: map<Id, Record>, id: Id, rec: Record)
    ensures Introductions(a + b, m, id, rec) == Introductions(a, m, id, rec) + Introductions(b, m, id, rec)
  {
    if a == [] {
      assert a + b == b;
    } else {
      assert (a + b)[1..] == a[1..] + b;
      IntroductionsAppend(a[1..], b, m, id, rec);
    }
  }

  lemma {:induction false} AddressedAppend(a: seq<Datagram>, b: seq<Datagram>, g: Id)
    ensures Addressed(a + b, g) == Addressed(a, g) + Addressed(b, g)
  {
    if a == [] {
      assert a + b == b;
    } else {
      assert (a + b)[1..] == a[1..] + b;
      AddressedAppend(a[1..], b, g);
    }
  }

  lemma AddressedPair(d: Datagram, e: Datagram, g: Id)
    ensures Addressed([d, e], g) == (if d.to == g then 1 else 0) + (if e.to == g then 1 else 0)
  {
    assert [d, e][1..] == [e];
    assert [e][1..] == [];
    assert Addressed([e], g) == (if e.to == g then 1 else 0) + Addressed([], g);
  }

  lemma {:induction false} HeardAppend(a: seq<Datagram>, b: seq<Datagram>, g: Id, text: string)
    ensures Heard(a + b, g, text) == Heard(a, g, text) + Heard(b, g, text)
  {
    if a == [] {
      assert a + b == b;
    } else {
      assert (a + b)[1..] == a[1..] + b;
      HeardAppend(a[1..], b, g, text);
    }
  }

  /** A datagram in the part of a plan that was attempted is in the plan. */
  lemma {:induction false} AttemptedWithin(planned: seq<Datagram>, net: Network)
    ensures forall d :: d in Attempted(planned, net) ==> d in planned
  {
    if planned != [] && net(planned[0]) != Raised {
      AttemptedWithin(planned[1..], net);
    }
  }

  // ---------------------------------------------------------------------------
  // What the plans promise.

  /** In a snapshot without repeats an id occurs once if it is there and never otherwise. */
  lemma {:induction false} OccurrencesOfDistinct(ids: seq<Id>, g: Id)
    requires Distinct(ids)
    ensures Occurrences(ids, g) == if g in ids then 1 else 0
  {
    if ids != [] {
      OccurrencesOfDistinct(ids[1..], g);
    }
  }

  /** Leaving out the sender removes exactly the sender's occurrences. */
  lemma {:induction false} OccurrencesOfOthers(ids: seq<Id>, g: Id, p: Id)
    ensures Occurrences(Others(ids, g), p) == if p == g then 0 else Occurrences(ids, p)
  {
    if ids != [] {
      OccurrencesOfOthers(ids[1..], g, p);
      var head := if ids[0] == g then [] else [ids[0]];
      assert Others(ids, g) == head + Others(ids[1..], g);
      OccurrencesAppend(head, Others(ids[1..], g), p);
    }
  }

  lemma {:induction false} OccurrencesAppend(a: seq<Id>, b: seq<Id>, g: Id)
    ensures Occurrences(a + b, g) == Occurrences(a, g) + Occurrences(b, g)
  {
    if a == [] {
      assert a + b == b;
    } else {
      assert (a + b)[1..] == a[1..] + b;
      OccurrencesAppend(a[1..], b, g);
    }
  }

  /** A fan-out sends `text` to each registered id once per time it is listed and
      to nobody else, every datagram under its recipient's own session. */
  lemma {:induction false} FanoutSpec(ids: seq<Id>, m: map<Id, Record>, text: string)
    ensures forall p :: Addressed(Fanout(ids, m, text), p) == if p in m then Occurrences(ids, p) else 0
    ensures forall d :: d in Fanout(ids, m, text) ==> d.to in ids && SealedFor(d, m) && d.text == text
  {
    if ids != [] {
      FanoutSpec(ids[1..], m, text);
      var head := if ids[0] in m then [ToClient(ids[0], m[ids[0]], text)] else [];
      forall p
        ensures Addressed(Fanout(ids, m, text), p) == if p in m then Occurrences(ids, p) else 0
      {
        AddressedAppend(head, Fanout(ids[1..], m, text), p);
      }
    }
  }

  /** OnConnected's plan: the newcomer `id` hears once about each earlier peer
      still registered, each such peer hears once about the newcomer, and nobody
      else hears anything; the newcomer's datagrams are under `rec`'s session,
      each peer's under its own. */
  lemma {:induction false} IntroductionsAddressed(ids: seq<Id>, m: map<Id, Record>, id: Id, rec: Record)
    requires id !in ids
    ensures Addressed(Introductions(ids, m, id, rec), id) == Present(ids, m)
    ensures forall p :: p != id ==> Addressed(Introductions(ids, m, id, rec), p) == if p in m then Occurrences(ids, p) else 0
  {
    if ids != [] {
      IntroductionsAddressed(ids[1..], m, id, rec);
      var head := if ids[0] in m then Introduction(id, rec, ids[0], m[ids[0]]) else [];
      forall p
        ensures Addressed(Introductions(ids, m, id, rec), p) == Addressed(head, p) + Addressed(Introductions(ids[1..], m, id, rec), p)
      {
        AddressedAppend(head, Introductions(ids[1..], m, id, rec), p);
      }
      if ids[0] in m {
        forall p
          ensures Addressed(head, p) == (if p == id then 1 else 0) + (if p == ids[0] then 1 else 0)
        {
          AddressedPair(head[0], head[1], p);
        }
      }
    }
  }

  /** What each introduction datagram says and whose session it is under. The
      newcomer only ever hears the current state of an earlier, still registered
      peer (never its own id); a peer only ever hears the newcomer's state. */
  lemma {:induction false} IntroductionsContent(ids: seq<Id>, m: map<Id, Record>, id: Id, rec: Record)
    requires id !in ids
    ensures forall d :: d in Introductions(ids, m, id, rec) && d.to == id ==>
      d == ToClient(id, rec, d.text) && exists p :: p in ids && p in m && d.text == Payload(p, m[p].state)
    ensures forall d :: d in Introductions(ids, m, id, rec) && d.to != id ==>
      d.to in ids && d.to in m && d == ToClient(d.to, m[d.to], Payload(id, rec.state))
  {
    if ids != [] {
      IntroductionsContent(ids[1..], m, id, rec);
    }
  }

  /** The newcomer hears the current state of each still registered peer once
      per time the peer is listed, and no other text about any id: every
      earlier peer is introduced, none twice, none with a stale state. */
  lemma {:induction false} IntroductionsHeard(ids: seq<Id>, m: map<Id, Record>, id: Id, rec: Record, p: Id, s: string)
    requires id !in ids
    ensures Heard(Introductions(ids, m, id, rec), id, Payload(p, s)) == if p in m && s == m[p].state then Occurrences(ids, p) else 0
  {
    if ids != [] {
      IntroductionsHeard(ids[1..], m, id, rec, p, s);
      var head := if ids[0] in m then Introduction(id, rec, ids[0], m[ids[0]]) else [];
      HeardAppend(head, Introductions(ids[1..], m, id, rec), id, Payload(p, s));
      if ids[0] in m {
        assert head[1..] == [head[1]] && [head[1]][1..] == [];
        if Payload(ids[0], m[ids[0]].state) == Payload(p, s) {
          PayloadInjective(ids[0], m[ids[0]].state, p, s);
        }
      }
    }
  }

  /** The newcomer is never told about itself. */
  lemma NewcomerNeverHearsItself(ids: seq<Id>, m: map<Id, Record>, id: Id, rec: Record, d: Datagram, s: string)
    requires id !in ids && d in Introductions(ids, m, id, rec) && d.to == id
    ensures d.text != Payload(id, s)
  {
    IntroductionsContent(ids, m, id, rec);
    var p :| p in ids && p in m && d.text == Payload(p, m[p].state);
    if d.text == Payload(id, s) {
      PayloadInjective(p, m[p].state, id, s);
    }
  }

  /** With no exception, a snapshot of ids all still registered reaches every one of them. */
  lemma {:induction false} PresentOfRegistered(ids: seq<Id>, m: map<Id, Record>)
    requires forall g :: g in ids ==> g in m
    ensures Present(ids, m) == |ids|
  {
    if ids != [] {
      PresentOfRegistered(ids[1..], m);
    }
  }

  /** OnConnected's round, when no SendTo throws (a short send does not stop
      it): the newcomer `id` receives one datagram for each earlier client, each
      earlier client receives exactly one, and nobody else receives anything.
      The newcomer hears every earlier client's current state exactly once and
      no other "<guid>|<state>" text. */
  lemma IntroductionRound(peers: seq<Id>, before: map<Id, Record>, id: Id, rec: Record, net: Network)
    requires Distinct(peers) && |peers| == |before| && (forall g :: g in peers <==> g in before) && id !in before
    requires !Raises(Introductions(peers, before[id := rec], id, rec), net)
    ensures Addressed(Attempted(Introductions(peers, before[id := rec], id, rec), net), id) == |before|
    ensures forall g :: g != id ==>
      Addressed(Attempted(Introductions(peers, before[id := rec], id, rec), net), g) == if g in before then 1 else 0
    ensures forall p, s ::
      Heard(Attempted(Introductions(peers, before[id := rec], id, rec), net), id, Payload(p, s)) ==
        if p in before && s == before[p].state then 1 else 0
  {
    var m := before[id := rec];
    var plan := Introductions(peers, m, id, rec);
    AttemptedPrefix(plan, net);
    IntroductionsAddressed(peers, m, id, rec);
    PresentOfRegistered(peers, m);
    forall g | g != id
      ensures Addressed(plan, g) == if g in before then 1 else 0
    {
      OccurrencesOfDistinct(peers, g);
    }
    forall p, s
      ensures Heard(plan, id, Payload(p, s)) == if p in before && s == before[p].state then 1 else 0
    {
      IntroductionsHeard(peers, m, id, rec, p, s);
      OccurrencesOfDistinct(peers, p);
    }
  }

  /** What OnConnected's datagrams say: each is under its recipient's own
      session; the newcomer is told the current state of earlier clients, they
      are told the newcomer's. This holds of every datagram sent, whether or
      not a SendTo throws. */
  lemma IntroductionContent(peers: seq<Id>, before: map<Id, Record>, id: Id, rec: Record, net: Network)
    requires id !in before && (forall g :: g in peers ==> g in before)
    ensures forall d :: d in Attempted(Introductions(peers, before[id := rec], id, rec), net) ==>
      && SealedFor(d, before[id := rec])
      && (d.to != id ==> d.text == Payload(id, rec.state))
      && (d.to == id ==> exists g :: g in before && d.text == Payload(g, before[g].state))
  {
    var m := before[id := rec];
    var plan := Introductions(peers, m, id, rec);
    AttemptedPrefix(plan, net);
    IntroductionsContent(peers, m, id, rec);
    forall d | d in Attempted(plan, net)
      ensures d in plan
    {
      var i :| 0 <= i < |Attempted(plan, net)| && Attempted(plan, net)[i] == d;
      assert plan[i] == d;
    }
  }

  /** OnDataReceived's round, when no SendTo throws: every registered client
      other than the sender receives "<id>|<text>" exactly once, under its own
      session; the sender receives nothing. */
  lemma UpdateRound(peers: seq<Id>, m: map<Id, Record>, id: Id, text: string, net: Network)
    requires Distinct(peers) && (forall g :: g in peers <==> g in m)
    requires !Raises(Fanout(Others(peers, id), m, Payload(id, text)), net)
    ensures var sent := Attempted(Fanout(Others(peers, id), m, Payload(id, text)), net);
      && (forall g :: Addressed(sent, g) == if g in m && g != id then 1 else 0)
      && (forall d :: d in sent ==> SealedFor(d, m) && d.text == Payload(id, text))
  {
    var plan := Fanout(Others(peers, id), m, Payload(id, text));
    AttemptedPrefix(plan, net);
    FanoutSpec(Others(peers, id), m, Payload(id, text));
    forall g
      ensures Addressed(plan, g) == if g in m && g != id then 1 else 0
    {
      OccurrencesOfOthers(peers, id, g);
      OccurrencesOfDistinct(peers, g);
    }
  }

  /** OnDisconnected's round, when no SendTo throws: every remaining client
      receives "<id>|DISCONNECTED" exactly once, under its own session; the
      departed client receives nothing. */
  lemma DisconnectRound(peers: seq<Id>, m: map<Id, Record>, id: Id, net: Network)
    requires Distinct(peers) && (forall g :: g in peers <==> g in m) && id !in m
    requires !Raises(Fanout(peers, m, Payload(id, Disconnected)), net)
    ensures var sent := Attempted(Fanout(peers, m, Payload(id, Disconnected)), net);
      && (forall g :: Addressed(sent, g) == if g in m then 1 else 0)
      && Addressed(sent, id) == 0
      && (forall d :: d in sent ==> SealedFor(d, m) && d.text == Payload(id, Disconnected))
  {
    var plan := Fanout(peers, m, Payload(id, Disconnected));
    AttemptedPrefix(plan, net);
    FanoutSpec(peers, m, Payload(id, Disconnected));
    forall g
      ensures Addressed(plan, g) == if g in m then 1 else 0
    {
      OccurrencesOfDistinct(peers, g);
    }
  }

  /** A client that left the registry between the snapshot and the lookup is
      neither sent to nor mentioned, in any of the three rounds. */
  lemma VanishedPeerSkipped(ids: seq<Id>, m: map<Id, Record>, id: Id, rec: Record, text: string, gone: Id)
    requires gone !in m && gone != id
    ensures Addressed(Fanout(ids, m, text), gone) == 0
    ensures Addressed(Introductions(ids, m, id, rec), gone) == 0
    ensures forall d :: d in Introductions(ids, m, id, rec) ==> forall s :: d.text != Payload(gone, s)
  {
    FanoutSpec(ids, m, text);
    IntroductionsVanished(ids, m, id, rec, gone);
  }

  lemma {:induction false} IntroductionsVanished(ids: seq<Id>, m: map<Id, Record>, id: Id, rec: Record, gone: Id)
    requires gone !in m && gone != id
    ensures Addressed(Introductions(ids, m, id, rec), gone) == 0
    ensures forall d :: d in Introductions(ids, m, id, rec) ==> forall s :: d.text != Payload(gone, s)
  {
    if ids != [] {
      IntroductionsVanished(ids[1..], m, id, rec, gone);
      var head := if ids[0] in m then Introduction(id, rec, ids[0], m[ids[0]]) else [];
      AddressedAppend(head, Introductions(ids[1..], m, id, rec), gone);
      if ids[0] in m {
        AddressedPair(head[0], head[1], gone);
        forall s ensures head[0].text != Payload(gone, s) && head[1].text != Payload(gone, s) {
          if head[0].text == Payload(gone, s) {
            PayloadInjective(ids[0], m[ids[0]].state, gone, s);
          }
          if head[1].text == Payload(gone, s) {
            PayloadInjective(id, rec.state, gone, s);
          }
        }
      }
    }
  }

  /** A fan-out whose datagram `d` throws after a part `a` without exceptions
      has sent `a` and `d` and nothing more. */
  lemma AttemptedRaisesAt(a: seq<Datagram>, d: Datagram, b: seq<Datagram>, net: Network)
    requires !Raises(a, net) && net(d) == Raised
    ensures Attempted(a + [d] + b, net) == a + [d]
    ensures Raises(a + [d] + b, net)
  {
    AttemptedAppend(a, [d] + b, net);
    assert a + [d] + b == a + ([d] + b);
    assert ([d] + b)[0] == d;
  }

  /** The plans of the three fan-outs, split at snapshot position i. */
  lemma IntroductionsSplit(ids: seq<Id>, i: nat, m: map<Id, Record>, id: Id, rec: Record)
    requires i < |ids|
    ensures Introductions(ids[..i + 1], m, id, rec) == Introductions(ids[..i], m, id, rec) + Introductions([ids[i]], m, id, rec)
    ensures Introductions(ids, m, id, rec) == Introductions(ids[..i + 1], m, id, rec) + Introductions(ids[i + 1..], m, id, rec)
  {
    assert ids[..i + 1] == ids[..i] + [ids[i]];
    IntroductionsAppend(ids[..i], [ids[i]], m, id, rec);
    assert ids == ids[..i + 1] + ids[i + 1..];
    IntroductionsAppend(ids[..i + 1], ids[i + 1..], m, id, rec);
  }

  lemma FanoutSplit(ids: seq<Id>, i: nat, m: map<Id, Record>, text: string)
    requires i < |ids|
    ensures Fanout(ids[..i + 1], m, text) == Fanout(ids[..i], m, text) + Fanout([ids[i]], m, text)
    ensures Fanout(ids, m, text) == Fanout(ids[..i + 1], m, text) + Fanout(ids[i + 1..], m, text)
  {
    assert ids[..i + 1] == ids[..i] + [ids[i]];
    FanoutAppend(ids[..i], [ids[i]], m, text);
    assert ids == ids[..i + 1] + ids[i + 1..];
    FanoutAppend(ids[..i + 1], ids[i + 1..], m, text);
  }

  lemma OthersFanoutSplit(ids: seq<Id>, i: nat, g: Id, m: map<Id, Record>, text: string)
    requires i < |ids|
    ensures Fanout(Others(ids[..i + 1], g), m, text) == Fanout(Others(ids[..i], g), m, text) + Fanout(Others([ids[i]], g), m, text)
    ensures Fanout(Others(ids, g), m, text) == Fanout(Others(ids[..i + 1], g), m, text) + Fanout(Others(ids[i + 1..], g), m, text)
  {
    assert ids[..i + 1] == ids[..i] + [ids[i]];
    OthersAppend(ids[..i], [ids[i]], g);
    FanoutAppend(Others(ids[..i], g), Others([ids[i]], g), m, text);
    assert ids == ids[..i + 1] + ids[i + 1..];
    OthersAppend(ids[..i + 1], ids[i + 1..], g);
    FanoutAppend(Others(ids[..i + 1], g), Others(ids[i + 1..], g), m, text);
  }

  // ---------------------------------------------------------------------------
  // The registry and its handlers.

  class Registry {
    var clients: map<Id, Record>

    /** Every record was made by a successful handshake. */
    ghost predicate Valid()
      reads this
    {
      forall g :: g in clients ==> WellFormed(clients[g])
    }

    constructor ()
      ensures Valid() && clients == map[]
    {
      clients := map[];
    }

    /** The dictionary's keys copied into a fresh array: the registered ids,
        each once, in the dictionary's (unspecified) order. */
    method Snapshot() returns (ids: seq<Id>)
      ensures Distinct(ids) && |ids| == |clients|
      ensures forall g :: g in ids <==> g in clients
    {
      ids := [];
      var rest := clients.Keys;
      while rest != {}
        invariant rest <= clients.Keys
        invariant Distinct(ids) && |ids| + |rest| == |clients.Keys|
        invariant forall g :: g in ids <==> g in clients && g !in rest
        decreases rest
      {
        var g :| g in rest;
        ids, rest := ids + [g], rest - {g};
      }
    }

    /** The locked part of OnConnected: snapshot the ids, Add, Count. */
    method Admit(id: Id, rec: Record) returns (count: int, peers: seq<Id>)
      requires Valid() && WellFormed(rec) && id !in clients
      modifies this
      ensures Valid()
      ensures clients == old(clients)[id := rec]
      ensures count == |old(clients)| + 1
      ensures Distinct(peers) && |peers| == |old(clients)| && forall g :: g in peers <==> g in old(clients)
    {
      peers := Snapshot();
      clients := clients[id := rec];
      assert clients.Keys == old(clients).Keys + {id};
      count := |clients|;
    }

    /** The foreach of OnConnected: for every snapshot id still registered, the
        peer's state to the newcomer and the newcomer's state to the peer. */
    method Introduce(peers: seq<Id>, id: Id, rec: Record, net: Network) returns (sent: seq<Datagram>, raised: bool)
      ensures sent == Attempted(Introductions(peers, clients, id, rec), net)
      ensures raised == Raises(Introductions(peers, clients, id, rec), net)
    {
      sent := [];
      var i := 0;
      while i < |peers|
        invariant i <= |peers|
        invariant sent == Introductions(peers[..i], clients, id, rec)
        invariant !Raises(sent, net)
      {
        var p := peers[i];
        IntroductionsSplit(peers, i, clients, id, rec);
        ghost var rest := Introductions(peers[i + 1..], clients, id, rec);
        if p in clients {
          var peer := clients[p];
          var pair := Introduction(id, rec, p, peer);
          assert Introductions([p], clients, id, rec) == pair;
          if net(pair[0]) == Raised {
            AttemptedRaisesAt(sent, pair[0], [pair[1]] + rest, net);
            assert sent + pair + rest == sent + [pair[0]] + ([pair[1]] + rest);
            return sent + [pair[0]], true;
          }
          if net(pair[1]) == Raised {
            AttemptedRaisesAt(sent + [pair[0]], pair[1], rest, net);
            assert sent + pair + rest == sent + [pair[0]] + [pair[1]] + rest;
            return sent + pair, true;
          }
          sent := sent + pair;
        } else {
          assert Introductions([p], clients, id, rec) == [];
        }
        i := i + 1;
      }
      assert peers[..i] == peers;
      AttemptedPrefix(sent, net);
      raised := false;
    }

    /** OnConnected(guid, address, port, iv, key): build the record (which throws
        for a bad port), admit it, introduce it to every earlier peer. The count
        is lost when a SendTo throws: the exception leaves the handler. */
    method OnConnected(id: Id, address: Address, port: int, iv: seq<byte>, key: seq<byte>, net: Network)
      returns (r: Result<int>, sent: seq<Datagram>, ghost peers: seq<Id>)
      requires Valid() && id !in clients && |iv| == IvLength && |key| == KeyLength
      modifies this
      ensures Valid()
      ensures NewRecord(address, port, iv, key).Err? ==> r == Err(PortOutOfRange) && clients == old(clients) && sent == []
      ensures NewRecord(address, port, iv, key).Ok? ==>
        var rec := NewRecord(address, port, iv, key).value;
        && clients == old(clients)[id := rec]
        && Distinct(peers) && |peers| == |old(clients)| && (forall g :: g in peers <==> g in old(clients))
        && sent == Attempted(Introductions(peers, clients, id, rec), net)
        && r == if Raises(Introductions(peers, clients, id, rec), net) then Err(DatagramRaised) else Ok(|old(clients)| + 1)
      ensures forall d :: d in sent ==> Encryptable(d)
    {
      var made := NewRecord(address, port, iv, key);
      if made.Err? {
        return Err(made.fault), [], [];
      }
      var count, guids := Admit(id, made.value);
      peers := guids;
      var raised;
      sent, raised := Introduce(guids, id, made.value, net);
      r := if raised then Err(DatagramRaised) else Ok(count);
      AttemptedWithin(Introductions(guids, clients, id, made.value), net);
      IntroductionsContent(guids, clients, id, made.value);
    }

    /** OnDataReceived(guid, plaintext): snapshot, store the new state (throws when
        guid is not registered), then send "<guid>|<plaintext>" to every other
        snapshot id still registered. */
    method OnDataReceived(id: Id, text: string, net: Network)
      returns (r: Result<()>, sent: seq<Datagram>, ghost peers: seq<Id>)
      requires Valid()
      modifies this
      ensures Valid()
      ensures id !in old(clients) ==> r == Err(UnknownClient) && clients == old(clients) && sent == []
      ensures id in old(clients) ==>
        && clients == old(clients)[id := old(clients)[id].(state := text)]
        && Distinct(peers) && (forall g :: g in peers <==> g in old(clients))
        && sent == Attempted(Fanout(Others(peers, id), clients, Payload(id, text)), net)
        && r == if Raises(Fanout(Others(peers, id), clients, Payload(id, text)), net) then Err(DatagramRaised) else Ok(())
      ensures forall d :: d in sent ==> Encryptable(d)
    {
      var guids := Snapshot();
      peers := guids;
      if id !in clients {
        return Err(UnknownClient), [], peers;
      }
      clients := clients[id := clients[id].(state := text)];
      var raised;
      sent, raised := Notify(guids, id, Payload(id, text), net);
      r := if raised then Err(DatagramRaised) else Ok(());
      AttemptedWithin(Fanout(Others(guids, id), clients, Payload(id, text)), net);
      FanoutSpec(Others(guids, id), clients, Payload(id, text));
    }

    /** The foreach of OnDataReceived: `text` to every snapshot id other than
        `sender` that is still registered. */
    method Notify(peers: seq<Id>, sender: Id, text: string, net: Network) returns (sent: seq<Datagram>, raised: bool)
      ensures sent == Attempted(Fanout(Others(peers, sender), clients, text), net)
      ensures raised == Raises(Fanout(Others(peers, sender), clients, text), net)
    {
      sent := [];
      var i := 0;
      while i < |peers|
        invariant i <= |peers|
        invariant sent == Fanout(Others(peers[..i], sender), clients, text)
        invariant !Raises(sent, net)
      {
        var p := peers[i];
        OthersFanoutSplit(peers, i, sender, clients, text);
        ghost var rest := Fanout(Others(peers[i + 1..], sender), clients, text);
        if p != sender && p in clients {
          var d := ToClient(p, clients[p], text);
          assert Fanout(Others([p], sender), clients, text) == [d];
          if net(d) == Raised {
            AttemptedRaisesAt(sent, d, rest, net);
            return sent + [d], true;
          }
          sent := sent + [d];
        } else {
          assert Fanout(Others([p], sender), clients, text) == [];
        }
        i := i + 1;
      }
      assert peers[..i] == peers;
      AttemptedPrefix(sent, net);
      raised := false;
    }

    /** OnDisconnected(guid): remove guid; if it was there, send "<guid>|DISCONNECTED"
        to every remaining id and return the remaining count (a SendTo exception
        is caught and ends the loop), otherwise return -1 and send nothing. */
    method OnDisconnected(id: Id, net: Network) returns (count: int, sent: seq<Datagram>, ghost peers: seq<Id>)
      requires Valid()
      modifies this
      ensures Valid()
      ensures clients == old(clients) - {id}
      ensures id !in old(clients) ==> count == -1 && sent == []
      ensures id in old(clients) ==>
        && count == |old(clients)| - 1
        && Distinct(peers) && (forall g :: g in peers <==> g in clients)
        && sent == Attempted(Fanout(peers, clients, Payload(id, Disconnected)), net)
      ensures forall d :: d in sent ==> Encryptable(d)
    {
      if id !in clients {
        assert clients - {id} == clients;
        return -1, [], [];
      }
      clients := clients - {id};
      assert old(clients).Keys == clients.Keys + {id};
      var guids := Snapshot();
      peers := guids;
      count := |clients|;
      var raised;
      sent, raised := Announce(guids, Payload(id, Disconnected), net);
      AttemptedWithin(Fanout(guids, clients, Payload(id, Disconnected)), net);
      FanoutSpec(guids, clients, Payload(id, Disconnected));
    }

    /** The foreach of OnDisconnected: `text` to every snapshot id still registered. */
    method Announce(peers: seq<Id>, text: string, net: Network) returns (sent: seq<Datagram>, raised: bool)
      ensures sent == Attempted(Fanout(peers, clients, text), net)
      ensures raised == Raises(Fanout(peers, clients, text), net)
    {
      sent := [];
      var i := 0;
      while i < |peers|
        invariant i <= |peers|
        invariant sent == Fanout(peers[..i], clients, text)
        invariant !Raises(sent, net)
      {
        var p := peers[i];
        FanoutSplit(peers, i, clients, text);
        ghost var rest := Fanout(peers[i + 1..], clients, text);
        if p in clients {
          var d := ToClient(p, clients[p], text);
          assert Fanout([p], clients, text) == [d];
          if net(d) == Raised {
            AttemptedRaisesAt(sent, d, rest, net);
            return sent + [d], true;
          }
          sent := sent + [d];
        } else {
          assert Fanout([p], clients, text) == [];
        }
        i := i + 1;
      }
      assert peers[..i] == peers;
      AttemptedPrefix(sent, net);
      raised := false;
    }
  }
}
