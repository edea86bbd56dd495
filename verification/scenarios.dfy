/** Runs of the registry handlers from an empty registry, one worker after
    another, checked against what the relay is meant to deliver. All clients
    here share one address and one session for brevity; their ids and ports differ. */
module Scenarios {
  import opened Outcomes
  import opened Bytes
  import opened Guids
  import opened Messages
  import opened Relay

  /** A distinct snapshot of a one-element registry is that element. */
  lemma SingleSnapshot(peers: seq<Id>, m: map<Id, Record>, a: Id)
    requires |peers| == |m| && m.Keys == {a} && forall g :: g in peers <==> g in m
    ensures peers == [a]
  {
    assert |m| == |m.Keys| == 1;
    assert peers[0] in m;
  }

  /** Client a connects and sends "hello"; then client b connects. b is told
      "<a>|hello" under its own session and a is told "<b>|CONNECTED" under
      a's session, and nothing else is sent in that round. The two clients
      have sessions of their own, so the datagrams show whose each is sealed under. */
  method HelloThenJoin(a: Id, b: Id, address: Address, pa: int, pb: int,
                       ivA: seq<byte>, keyA: seq<byte>, ivB: seq<byte>, keyB: seq<byte>, net: Network)
    returns (sent: seq<Datagram>)
    requires a != b && 0 <= pa <= MaxPort && 0 <= pb <= MaxPort
    requires |ivA| == IvLength && |keyA| == KeyLength && |ivB| == IvLength && |keyB| == KeyLength
    requires forall d :: net(d) != Raised
    ensures sent == [Datagram(b, Endpoint(address, pb), Payload(a, "hello"), ivB, keyB),
                     Datagram(a, Endpoint(address, pa), Payload(b, Connected), ivA, keyA)]
  {
    var reg := new Registry();
    ghost var peers;
    var r, s;
    r, s, peers := reg.OnConnected(a, address, pa, ivA, keyA, net);
    var u;
    u, s, peers := reg.OnDataReceived(a, "hello", net);
    ghost var before := reg.clients;
    assert before.Keys == {a};
    r, sent, peers := reg.OnConnected(b, address, pb, ivB, keyB, net);
    SingleSnapshot(peers, before, a);
    var plan := Introductions(peers, reg.clients, b, Record(Endpoint(address, pb), ivB, keyB, Connected));
    AttemptedPrefix(plan, net);
  }

  /** Clients a, b and c connect in that order. In c's round, c hears about
      both a and b (each as CONNECTED, once), each of a and b hears once about
      c, and every datagram a or b receives announces c as CONNECTED. */
  method ThreeJoin(a: Id, b: Id, c: Id, address: Address, pa: int, pb: int, pc: int, iv: seq<byte>, key: seq<byte>, net: Network)
    returns (sent: seq<Datagram>)
    requires a != b && b != c && a != c
    requires 0 <= pa <= MaxPort && 0 <= pb <= MaxPort && 0 <= pc <= MaxPort && |iv| == IvLength && |key| == KeyLength
    requires forall d :: net(d) != Raised
    ensures Addressed(sent, c) == 2 && Addressed(sent, a) == 1 && Addressed(sent, b) == 1
    ensures Heard(sent, c, Payload(a, Connected)) == 1 && Heard(sent, c, Payload(b, Connected)) == 1
    ensures forall d :: d in sent && d.to != c ==> d.text == Payload(c, Connected)
  {
    var reg := new Registry();
    ghost var peers;
    var r, s;
    r, s, peers := reg.OnConnected(a, address, pa, iv, key, net);
    r, s, peers := reg.OnConnected(b, address, pb, iv, key, net);
    ghost var before := reg.clients;
    assert before.Keys == {a, b};
    var rec := Record(Endpoint(address, pc), iv, key, Connected);
    r, sent, peers := reg.OnConnected(c, address, pc, iv, key, net);
    IntroductionRound(peers, before, c, rec, net);
    IntroductionContent(peers, before, c, rec, net);
  }

  /** Clients a, b and c are connected and b goes away: a and c are each told
      "<b>|DISCONNECTED" once, b nothing, and two clients remain. */
  method LeaveOfThree(a: Id, b: Id, c: Id, address: Address, pa: int, pb: int, pc: int, iv: seq<byte>, key: seq<byte>, net: Network)
    returns (count: int, sent: seq<Datagram>)
    requires a != b && b != c && a != c
    requires 0 <= pa <= MaxPort && 0 <= pb <= MaxPort && 0 <= pc <= MaxPort && |iv| == IvLength && |key| == KeyLength
    requires forall d :: net(d) != Raised
    ensures count == 2
    ensures Addressed(sent, a) == 1 && Addressed(sent, c) == 1 && Addressed(sent, b) == 0
    ensures forall d :: d in sent ==> d.text == Payload(b, Disconnected)
  {
    var reg := new Registry();
    ghost var peers;
    var r, s;
    r, s, peers := reg.OnConnected(a, address, pa, iv, key, net);
    r, s, peers := reg.OnConnected(b, address, pb, iv, key, net);
    r, s, peers := reg.OnConnected(c, address, pc, iv, key, net);
    assert reg.clients.Keys == {a, b, c};
    count, sent, peers := reg.OnDisconnected(b, net);
    DisconnectRound(peers, reg.clients, b, net);
  }

  /** Clients a, b and c are connected and c sends an update while every
      datagram to a comes up short: b is still sent the update, and a's
      short datagram was attempted too. */
  method ShortSendToOnePeer(a: Id, b: Id, c: Id, address: Address, pa: int, pb: int, pc: int, iv: seq<byte>, key: seq<byte>,
                            text: string, net: Network)
    returns (sent: seq<Datagram>)
    requires a != b && b != c && a != c
    requires 0 <= pa <= MaxPort && 0 <= pb <= MaxPort && 0 <= pc <= MaxPort && |iv| == IvLength && |key| == KeyLength
    requires forall d :: net(d) == if d.to == a then Short else Delivered
    ensures Addressed(sent, a) == 1 && Addressed(sent, b) == 1 && Addressed(sent, c) == 0
  {
    var reg := new Registry();
    ghost var peers;
    var r, s;
    r, s, peers := reg.OnConnected(a, address, pa, iv, key, net);
    r, s, peers := reg.OnConnected(b, address, pb, iv, key, net);
    r, s, peers := reg.OnConnected(c, address, pc, iv, key, net);
    var u;
    u, sent, peers := reg.OnDataReceived(c, text, net);
    UpdateRound(peers, reg.clients, c, text, net);
  }
}
