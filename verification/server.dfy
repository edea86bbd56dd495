/** The connection worker, HandleClient: the handshake that sets up the AES
    session, admission to the registry, the message loop, and the cleanup
    that always ends in OnDisconnected. */
module Server {
  import opened Outcomes
  import opened Bytes
  import opened Guids
  import opened Transport
  import opened Relay
  import Messages

  /** The calls the worker makes into .NET cryptography and parsing. A `None`
      stands for the exception the call throws. */
  datatype Primitives = Primitives(
    rsaDecrypt: seq<byte> -> Option<seq<byte>>,                    // rsa.Decrypt(data, RSAEncryptionPadding.Pkcs1)
    encrypt: (string, seq<byte>, seq<byte>) -> ByteArray,          // Encrypt(plaintext, IV, Key)
    decrypt: (seq<byte>, seq<byte>, seq<byte>) -> Option<string>,  // Decrypt(ciphertext, IV, Key)
    parseInt: string -> Option<int32>)                             // int.Parse(plaintext)

  /** rsaParameters.Exponent and rsaParameters.Modulus of the server's key. */
  datatype RsaPublic = RsaPublic(exponent: seq<byte>, modulus: seq<byte>)

  /** What a completed handshake yields: the AES IV and key and the client's UDP port. */
  datatype Session = Session(iv: seq<byte>, key: seq<byte>, port: int)

  /** The block at lines 168-199 as a function of the client's bytes `s`: two
      RSA blocks of `block` bytes, each decrypted, then the last 16 bytes of
      the first and the last 32 bytes of the second. */
  function SessionKeys(s: seq<byte>, block: nat, p: Primitives): (r: Result<(seq<byte>, seq<byte>)>)
    ensures r.Ok? ==> 2 * block <= |s| && |r.value.0| == IvLength && |r.value.1| == KeyLength
  {
    if |s| < block then Err(ConnectionClosed)
    else match p.rsaDecrypt(s[..block]) {
      case None => Err(DecryptFailed)
      case Some(ivPlain) =>
        if |s| < 2 * block then Err(ConnectionClosed)
        else match p.rsaDecrypt(s[block..2 * block]) {
          case None => Err(DecryptFailed)
          case Some(keyPlain) =>
            match (Tail(ivPlain, IvLength), Tail(keyPlain, KeyLength)) {
              case (Err(f), _) => Err(f)
              case (_, Err(f)) => Err(f)
              case (Ok(iv), Ok(key)) => Ok((iv, key))
            }
        }
    }
  }

  /** The block at lines 219-251 as a function of the client's bytes `s`: one
      frame, decrypted under the session, parsed as an int; and what is left. */
  function ClientPort(s: seq<byte>, iv: seq<byte>, key: seq<byte>, p: Primitives): (r: Result<(int, seq<byte>)>)
    ensures r.Ok? ==> |r.value.1| < |s|
  {
    match ReadFrame(s) {
      case Err(f) => Err(f)
      case Ok((body, rest)) =>
        match p.decrypt(body, iv, key) {
          case None => Err(DecryptFailed)
          case Some(text) =>
            match p.parseInt(text) {
              case None => Err(MalformedPort)
              case Some(port) => Ok((port as int, rest))
            }
        }
    }
  }

  /** The handshake as a function of what the client sends (`s`, all of it) and
      of how many bytes the client will take (`room`): its outcome and the
      bytes left unread after it. In order: send exponent and modulus; receive
      the session keys; send the welcome frame; receive the port. */
  function HandshakeSpec(s: seq<byte>, room: nat, rsa: RsaPublic, welcome: string, p: Primitives): (r: Result<(Session, seq<byte>)>)
    ensures r.Ok? ==> |r.value.0.iv| == IvLength && |r.value.0.key| == KeyLength
    ensures r.Ok? ==> |r.value.1| < |s|
  {
    var block := |rsa.modulus|;
    if room < |rsa.exponent| + block then Err(SendFailed)
    else match SessionKeys(s, block, p) {
      case Err(f) => Err(f)
      case Ok((iv, key)) =>
        if room - |rsa.exponent| - block < |EncodeFrame(p.encrypt(welcome, iv, key))| then Err(SendFailed)
        else match ClientPort(s[2 * block..], iv, key, p) {
          case Err(f) => Err(f)
          case Ok((port, rest)) => Ok((Session(iv, key, port), rest))
        }
    }
  }

  /** Lines 168-199: receive and decrypt the two RSA blocks into one reused buffer. */
  method ReceiveSessionKeys(conn: Connection, block: nat, p: Primitives) returns (r: Result<(seq<byte>, seq<byte>)>)
    requires conn.Valid()
    modifies conn`chunks
    ensures conn.Valid()
    ensures r == SessionKeys(old(conn.Pending()), block, p)
    ensures r.Ok? ==> conn.Pending() == old(conn.Pending())[2 * block..]
  {
    ghost var input := conn.Pending();
    var data := new byte[block];
    var ok := ReceiveExact(conn, data);
    if !ok {
      return Err(ConnectionClosed);
    }
    var iv := p.rsaDecrypt(data[..]);
    if iv.None? {
      return Err(DecryptFailed);
    }
    ok := ReceiveExact(conn, data);
    if !ok {
      return Err(ConnectionClosed);
    }
    assert input[block..][..block] == input[block..2 * block];
    assert input[block..][block..] == input[2 * block..];
    var key := p.rsaDecrypt(data[..]);
    if key.None? {
      return Err(DecryptFailed);
    }
    var IV := Tail(iv.value, IvLength);
    if IV.Err? {
      return Err(IV.fault);
    }
    var Key := Tail(key.value, KeyLength);
    if Key.Err? {
      return Err(Key.fault);
    }
    return Ok((IV.value, Key.value));
  }

  /** Lines 219-251: receive the port frame, decrypt it, parse it. */
  method ReceivePort(conn: Connection, iv: seq<byte>, key: seq<byte>, p: Primitives) returns (r: Result<int>)
    requires conn.Valid()
    modifies conn`chunks
    ensures conn.Valid()
    ensures ClientPort(old(conn.Pending()), iv, key, p).Ok? <==> r.Ok?
    ensures r.Ok? ==> (r.value, conn.Pending()) == ClientPort(old(conn.Pending()), iv, key, p).value
    ensures r.Err? ==> r.fault == ClientPort(old(conn.Pending()), iv, key, p).fault
  {
    var frame := ReceiveFrame(conn);
    if frame.Err? {
      return Err(frame.fault);
    }
    var plaintext := p.decrypt(frame.value, iv, key);
    if plaintext.None? {
      return Err(DecryptFailed);
    }
    var port := p.parseInt(plaintext.value);
    if port.None? {
      return Err(MalformedPort);
    }
    return Ok(port.value as int);
  }

  /** The handshake of HandleClient, up to the call of OnConnected. */
  method Handshake(conn: Connection, rsa: RsaPublic, welcome: string, p: Primitives) returns (r: Result<Session>)
    requires conn.Valid()
    modifies conn
    ensures conn.Valid()
    ensures HandshakeSpec(old(conn.Pending()), old(conn.room), rsa, welcome, p).Ok? <==> r.Ok?
    ensures r.Ok? ==> (r.value, conn.Pending()) == HandshakeSpec(old(conn.Pending()), old(conn.room), rsa, welcome, p).value
    ensures r.Err? ==> r.fault == HandshakeSpec(old(conn.Pending()), old(conn.room), rsa, welcome, p).fault
    ensures r.Ok? ==> conn.written == old(conn.written) + rsa.exponent + rsa.modulus + EncodeFrame(p.encrypt(welcome, r.value.iv, r.value.key))
  {
    var sent := conn.Send(rsa.exponent);
    if sent != |rsa.exponent| {
      return Err(SendFailed);
    }
    sent := conn.Send(rsa.modulus);
    if sent != |rsa.modulus| {
      return Err(SendFailed);
    }
    var keys := ReceiveSessionKeys(conn, |rsa.modulus|, p);
    if keys.Err? {
      return Err(keys.fault);
    }
    var (iv, key) := keys.value;
    var ciphertext := p.encrypt(welcome, iv, key);
    var bytes := GetBytes(|ciphertext| as int32);
    sent := conn.Send(bytes);
    if sent != |bytes| {
      return Err(SendFailed);
    }
    sent := conn.Send(ciphertext);
    if sent != |ciphertext| {
      return Err(SendFailed);
    }
    var port := ReceivePort(conn, iv, key, p);
    if port.Err? {
      return Err(port.fault);
    }
    return Ok(Session(iv, key, port.value));
  }

  /** Key agreement: when the client sends its IV and key each in one RSA block
      (whatever the decryption puts in front of them), then a frame whose
      plaintext parses as its port, and the connection takes the server's
      replies, the server ends up with exactly the client's IV, key and port. */
  lemma HandshakeAgreement(rsa: RsaPublic, welcome: string, p: Primitives, room: nat,
                           ivBlock: seq<byte>, keyBlock: seq<byte>, ivPad: seq<byte>, iv: seq<byte>, keyPad: seq<byte>, key: seq<byte>,
                           portFrame: ByteArray, portText: string, port: int32, rest: seq<byte>)
    requires |ivBlock| == |rsa.modulus| && |keyBlock| == |rsa.modulus|
    requires |iv| == IvLength && |key| == KeyLength
    requires p.rsaDecrypt(ivBlock) == Some(ivPad + iv) && p.rsaDecrypt(keyBlock) == Some(keyPad + key)
    requires p.decrypt(portFrame, iv, key) == Some(portText) && p.parseInt(portText) == Some(port)
    requires room >= |rsa.exponent| + |rsa.modulus| + |EncodeFrame(p.encrypt(welcome, iv, key))|
    ensures HandshakeSpec(ivBlock + keyBlock + EncodeFrame(portFrame) + rest, room, rsa, welcome, p)
         == Ok((Session(iv, key, port as int), rest))
  {
    var s := ivBlock + keyBlock + EncodeFrame(portFrame) + rest;
    var block := |rsa.modulus|;
    assert s[..block] == ivBlock;
    assert s[block..2 * block] == keyBlock;
    assert s[2 * block..] == EncodeFrame(portFrame) + rest;
    TailOfSuffix(ivPad, iv);
    TailOfSuffix(keyPad, key);
    ReadFrameOfEncodeFrame(portFrame, rest);
  }

  /** A client that goes away before completing the first RSA block never gets
      past the handshake. */
  lemma HandshakeShortRead(s: seq<byte>, room: nat, rsa: RsaPublic, welcome: string, p: Primitives)
    requires |s| < |rsa.modulus| && room >= |rsa.exponent| + |rsa.modulus|
    ensures HandshakeSpec(s, room, rsa, welcome, p) == Err(ConnectionClosed)
  {
  }

  /** The `while (true)` loop of HandleClient: read a frame, decrypt it, hand it
      to OnDataReceived; it ends at the first failure. Only the worker's own
      record changes, and only in its state: its endpoint, IV and key stay. */
  method ServeMessages(reg: Registry, conn: Connection, id: Id, s: Session, p: Primitives, net: Network)
    returns (sent: seq<Datagram>)
    requires reg.Valid() && conn.Valid() && id in reg.clients
    modifies reg, conn
    ensures reg.Valid() && conn.Valid()
    ensures id in reg.clients && reg.clients == old(reg.clients)[id := old(reg.clients)[id].(state := reg.clients[id].state)]
  {
    sent := [];
    while true
      invariant reg.Valid() && conn.Valid()
      invariant id in reg.clients && reg.clients == old(reg.clients)[id := old(reg.clients)[id].(state := reg.clients[id].state)]
      decreases |conn.Pending()|
    {
      var frame := ReceiveFrame(conn);
      if frame.Err? {
        return;
      }
      var plaintext := p.decrypt(frame.value, s.iv, s.key);
      if plaintext.None? {
        return;
      }
      ghost var others;
      var updated, relayed;
      updated, relayed, others := reg.OnDataReceived(id, plaintext.value, net);
      sent := sent + relayed;
      if updated.Err? {
        return;
      }
    }
  }

  /** HandleClient from line 254 on, once the handshake has produced `s`:
      OnConnected, the message loop, and the OnDisconnected of the catch block.
      With the worker running alone, the registry ends as it began; the final
      count is the size it had, or -1 when the port was refused before admission,
      in which case nothing is sent. */
  method RunSession(reg: Registry, conn: Connection, id: Id, address: Address, s: Session, p: Primitives, net: Network)
    returns (count: int, sent: seq<Datagram>)
    requires reg.Valid() && conn.Valid() && id !in reg.clients
    requires |s.iv| == IvLength && |s.key| == KeyLength
    modifies reg, conn
    ensures reg.Valid() && reg.clients == old(reg.clients)
    ensures count == if 0 <= s.port <= MaxPort then |old(reg.clients)| else -1
    ensures count == -1 ==> sent == []
  {
    ghost var registered := reg.clients;
    ghost var peers;
    var connected;
    if !(0 <= s.port <= MaxPort) {
      // `new Client(...)` throws inside OnConnected before anything is added
      connected, sent, peers := reg.OnConnected(id, address, s.port, s.iv, s.key, net);
      assert reg.clients == registered;
      count, sent, peers := reg.OnDisconnected(id, net);
      return;
    }
    connected, sent, peers := reg.OnConnected(id, address, s.port, s.iv, s.key, net);
    if connected.Ok? {
      var relayed := ServeMessages(reg, conn, id, s, p, net);
      sent := sent + relayed;
    }
    ghost var own := reg.clients[id];
    assert reg.clients == registered[id := own];
    AddThenRemove(registered, id, own);
    var notified;
    count, notified, peers := reg.OnDisconnected(id, net);
    sent := sent + notified;
  }

  /** Adding a fresh key and removing it again restores the map. */
  lemma AddThenRemove(m: map<Id, Record>, id: Id, r: Record)
    requires id !in m
    ensures m[id := r] - {id} == m
    ensures |m[id := r]| == |m| + 1
  {
    assert m[id := r].Keys == m.Keys + {id};
  }

  /** HandleClient(client) for the connection `conn` with identifier `id` and
      peer address `address`. With the worker running alone it leaves the
      registry as it found it. The client is admitted exactly when the
      handshake succeeds with a port IPEndPoint accepts, and then the final
      OnDisconnected returns the count without it; otherwise that call
      returns -1 and no datagram is sent at all. */
  method HandleClient(reg: Registry, conn: Connection, id: Id, address: Address, rsa: RsaPublic, welcome: string,
                      p: Primitives, net: Network) returns (count: int, sent: seq<Datagram>)
    requires reg.Valid() && conn.Valid() && id !in reg.clients
    modifies reg, conn
    ensures reg.Valid() && reg.clients == old(reg.clients)
    ensures var h := HandshakeSpec(old(conn.Pending()), old(conn.room), rsa, welcome, p);
      count == if h.Ok? && 0 <= h.value.0.port <= MaxPort then |old(reg.clients)| else -1
    ensures count == -1 ==> sent == []
  {
    var session := Handshake(conn, rsa, welcome, p);
    if session.Err? {
      ghost var peers;
      count, sent, peers := reg.OnDisconnected(id, net);
      return;
    }
    count, sent := RunSession(reg, conn, id, address, session.value, p, net);
  }
}
