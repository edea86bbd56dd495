# IPv6 relay server: a Dafny model

This project models the relay server `TestServer` (`TestServer/TestServer/Program.cs`).
The server accepts TCP connections. Each connection gets a worker, `HandleClient`, which runs
a handshake:

1. It sends the server's RSA public key (exponent, then modulus).
2. It receives the client's AES IV and key as two RSA blocks, decrypts them and keeps the
   last 16 and 32 bytes.
3. It sends an encrypted welcome frame.
4. It receives the client's UDP port as an encrypted, length-prefixed frame.

The worker then registers the client in a shared registry, `Dictionary<Guid, Client>`.
From there on it relays every frame the client sends to every other registered client, as an
AES-encrypted UDP datagram `"<guid>|<state>"`. When the connection ends, the client is
removed and the others hear `"<guid>|DISCONNECTED"`.

Modules:

- `Outcomes`: `Option`, `Result` and the faults that end a worker: a closed connection, a
  short send, a negative length prefix, a failed decryption, short key material, a malformed
  or out-of-range port, an unknown client, and a `SocketException` from `SendTo`.
- `Bytes`:
  - bytes and 32-bit integers;
  - `BitConverter.ToInt32` and `BitConverter.GetBytes` (little-endian, two's complement);
  - the key/IV tail copy done by `Buffer.BlockCopy`.
- `Guids`: a `Guid` as its 32 hexadecimal digits, its 36-character `ToString()` text, and the
  parse that inverts that text.
- `Messages`: the relay payload `"<guid>|<state>"` and its parse.
- `Transport`:
  - the accepted socket as a `Connection` class. It holds the byte chunks the peer will
    deliver, the bytes written so far, and how many more bytes the peer will take;
  - `Receive` and `Send`;
  - the exact-length receive loop;
  - the length-prefixed frame.
- `Relay`:
  - the registry as a `Registry` class over a `map<Id, Record>`;
  - its three handlers `OnConnected`, `OnDataReceived` and `OnDisconnected`;
  - the datagrams each handler plans, as functions, with lemmas about who receives what.
- `Server`: the handshake (a method, proved against the function `HandshakeSpec`), the
  message loop, and the whole worker.
- `Scenarios`: short runs of the handlers on a fresh registry.

Some things are parameters rather than code:

- AES, RSA decryption and `int.Parse` are the fields of `Server.Primitives`. RSA decryption,
  AES decryption and `int.Parse` return `None` where the .NET call throws. AES encryption is
  total: the model takes `Encrypt` never to fail.
- A datagram carries its plaintext and the IV and key it is sealed under. The ciphertext it
  stands for is `Encrypt(text, iv, key)`.
- What `SendTo` does with each datagram is given by a `Network` oracle: `Delivered`, `Short`
  (logged, and the loop goes on) or `Raised` (a `SocketException`).

How the model deals with concurrency:

- Each handler runs its locked section and its fan-out without another worker in between.
- A fan-out looks every id of its snapshot up in the registry as it is at that moment, so a
  client that is gone is skipped. `Relay.VanishedPeerSkipped` states this.
- The order in which `Dictionary.Keys` lists its ids is left open. `Snapshot` picks any order
  with `:|`, and every lemma holds for all orders.

Some of the code's behaviour is easy to misread; the model follows the code:

- The length prefix is written and read with `BitConverter`, which is little-endian on the
  platforms .NET runs on. It is not in network byte order.
- The prefix is a signed `int`. A negative value makes `new byte[length]` throw, so the
  worker ends. `Transport.ReadFrame` gives `NegativeLength`.
- Decrypted key material is copied from its tail with `Buffer.BlockCopy`. When it is shorter
  than 16 or 32 bytes, the copy throws. The head is not zero-padded. `Bytes.Tail` gives
  `KeyMaterialTooShort`.
- A short TCP `Send` is not retried. The worker throws "Connection closed" (`SendFailed`).
- A short `SendTo` is only logged. A `SendTo` that throws ends the fan-out loop:
  - In `OnDisconnected`, the handler catches it and still returns the count.
  - In `OnConnected` and `OnDataReceived`, it leaves the handler. The worker then goes to
    its `OnDisconnected`.
- When A, B and C connect in that order, C's arrival sends A one datagram, `"<C>|CONNECTED"`.
  `Scenarios.ThreeJoin` proves this.
- A port outside 0..65535 makes `new IPEndPoint` throw inside `OnConnected`, before the
  client is added. The worker's `OnDisconnected` then returns -1.

## Model

| member | source | states |
|---|---|---|
| Bytes.ToInt32 | TestServer/TestServer/Program.cs:233 | the prefix read by `BitConverter.ToInt32` is negative exactly when the top bit of its last (most significant) byte is set |
| Bytes.GetBytes | TestServer/TestServer/Program.cs:206 | `BitConverter.GetBytes` of an `int` is four bytes; `ToInt32OfGetBytes` and `GetBytesOfToInt32` state that it inverts `ToInt32` |
| Bytes.ToInt32OfGetBytes | TestServer/TestServer/Program.cs:206 | reading back the four bytes `BitConverter.GetBytes` writes gives the same `int` |
| Bytes.GetBytesOfToInt32 | TestServer/TestServer/Program.cs:273 | every four-byte prefix is the `GetBytes` image of the `int` it reads as, so the 32-bit codec is a bijection |
| Bytes.Tail | TestServer/TestServer/Program.cs:197-198 | the tail copy succeeds exactly when the source holds at least the wanted length; it then yields that many bytes, which end the source; otherwise it fails (no padding) |
| Bytes.TailOfSuffix | TestServer/TestServer/Program.cs:197-198 | key material behind any decryption padding is recovered exactly |
| Guids.Text | TestServer/TestServer/Program.cs:350 | a `Guid.ToString()` text is 36 characters long and never contains the `|` separator |
| Guids.ParseText | TestServer/TestServer/Program.cs:350 | parsing the text of a guid gives that guid back |
| Guids.TextOfParse | TestServer/TestServer/Program.cs:350 | every text that parses is the text of the guid it parses to |
| Guids.TextInjective | TestServer/TestServer/Program.cs:350 | different guids have different texts |
| Messages.Payload | TestServer/TestServer/Program.cs:350 | a payload is the 36-character guid text, then `|`, then the state unchanged |
| Messages.ParsePayloadOfPayload | TestServer/TestServer/Program.cs:398 | a receiver recovers the sender's guid and text from a payload |
| Messages.PayloadOfParsePayload | TestServer/TestServer/Program.cs:440 | every text that parses as a payload is the payload of what it parses to |
| Messages.PayloadInjective | TestServer/TestServer/Program.cs:360 | two payloads are equal only when their guids and states are |
| Transport.Connection.Receive | TestServer/TestServer/Program.cs:174 | copies the next `n <= size` pending bytes into the buffer at `offset`, leaving the rest of the buffer alone; returns 0 only when `size` is 0 or the peer has nothing more to send |
| Transport.Connection.Send | TestServer/TestServer/Program.cs:157 | writes as many bytes as the peer will take and returns that number |
| Transport.ReceiveExact | TestServer/TestServer/Program.cs:171-180 | the loop succeeds exactly when the peer still sends at least `data.Length` bytes; it then fills `data` with exactly the next bytes and consumes them; otherwise the connection is closed |
| Transport.EncodeFrame | TestServer/TestServer/Program.cs:206-216 | the frame the server writes is four bytes longer than its body; `ReadFrameOfEncodeFrame` and `TruncatedFrame` state how it reads back |
| Transport.ReadFrame | TestServer/TestServer/Program.cs:260-286 | a frame read from a stream is, with what follows it, exactly that stream; failure is either a closed connection or a prefix whose sign bit is set, and a complete prefix with its sign bit set always fails as a negative length |
| Transport.ReadFrameOfEncodeFrame | TestServer/TestServer/Program.cs:206-216 | a frame as the server writes it, followed by anything, reads back as the same body and the same rest |
| Transport.TruncatedFrame | TestServer/TestServer/Program.cs:262-286 | a stream that ends inside a frame is a closed connection, never a shorter frame |
| Transport.ReceiveFrame | TestServer/TestServer/Program.cs:260-286 | receiving a frame from a connection succeeds, consumes and fails exactly as `ReadFrame` does on the bytes still to come |
| Relay.NewRecord | TestServer/TestServer/Program.cs:29-40 | a new client keeps the endpoint, IV and key it was given and starts in state CONNECTED; a port outside 0..65535 is refused |
| Relay.Others | TestServer/TestServer/Program.cs:387 | no contract of its own; `OccurrencesOfOthers` states that it drops exactly the sender's occurrences from the snapshot |
| Relay.Fanout | TestServer/TestServer/Program.cs:385-407 | no contract of its own; `FanoutSpec` states who is sent what, under which session |
| Relay.Introduction | TestServer/TestServer/Program.cs:349-367 | no contract of its own; `IntroductionsContent` and `IntroductionsHeard` state what the pair says and under whose session |
| Relay.Introductions | TestServer/TestServer/Program.cs:338-369 | no contract of its own; `IntroductionsAddressed`, `IntroductionsHeard` and `IntroductionsContent` state who is sent what |
| Relay.Attempted | TestServer/TestServer/Program.cs:353-356 | no contract of its own; `AttemptedPrefix`, `AttemptedAppend` and `AttemptedRaisesAt` state that a short send is only logged and a throwing one ends the loop |
| Relay.OccurrencesOfOthers | TestServer/TestServer/Program.cs:387 | leaving the sender out of the snapshot removes exactly the sender's occurrences and keeps every other id's |
| Relay.AttemptedPrefix | TestServer/TestServer/Program.cs:338-369 | the datagrams a fan-out hands to SendTo are a prefix of its plan that ends at the first exception, and are the whole plan when nothing throws; a short send does not stop it |
| Relay.AttemptedAppend | TestServer/TestServer/Program.cs:385-407 | a fan-out runs through a part of its plan without exceptions and then goes on with the rest |
| Relay.AttemptedWithin | TestServer/TestServer/Program.cs:338-369 | every datagram a fan-out hands to SendTo is one of its plan |
| Relay.AttemptedRaisesAt | TestServer/TestServer/Program.cs:443 | a datagram whose SendTo throws is the last one attempted |
| Relay.FanoutSpec | TestServer/TestServer/Program.cs:429-448 | a fan-out sends the text once for each time a still-registered id is listed, at that client's endpoint and under its own session, and nothing to other ids |
| Relay.IntroductionsAddressed | TestServer/TestServer/Program.cs:338-369 | counts only: the newcomer is sent as many datagrams as there are snapshot ids still registered, each such peer is sent one per time it is listed, and no other id is sent anything |
| Relay.IntroductionsHeard | TestServer/TestServer/Program.cs:338-357 | for every id and state, the newcomer hears `"<id>|<state>"` once per time the id is listed when the id is still registered with that current state, and never otherwise: every earlier peer is introduced, with its current state |
| Relay.IntroductionsContent | TestServer/TestServer/Program.cs:349-367 | each datagram to the newcomer is under the newcomer's session and carries the current state of some listed, still registered peer; each datagram to a peer is under that peer's session and carries the newcomer's state |
| Relay.NewcomerNeverHearsItself | TestServer/TestServer/Program.cs:332-334 | since the snapshot is taken before the Add, the newcomer is never introduced to itself |
| Relay.PresentOfRegistered | TestServer/TestServer/Program.cs:342-347 | when every snapshot id is still registered, none is skipped |
| Relay.IntroductionRound | TestServer/TestServer/Program.cs:324-372 | when no SendTo throws, the newcomer hears every earlier client's current state exactly once (as many datagrams as earlier clients, and no other `"<guid>|<state>"` text), and each earlier client receives exactly one datagram |
| Relay.IntroductionContent | TestServer/TestServer/Program.cs:349-367 | every datagram of a connect round, whether or not a SendTo throws, is sealed for its recipient's record; the newcomer's carry the current state of some earlier client, the peers' carry the newcomer's state |
| Relay.UpdateRound | TestServer/TestServer/Program.cs:374-408 | when no SendTo throws, an update reaches every other registered client exactly once, sealed for it, as `"<sender>|<text>"`, and never the sender |
| Relay.DisconnectRound | TestServer/TestServer/Program.cs:410-462 | when no SendTo throws, every remaining client receives exactly one `"<guid>|DISCONNECTED"` and the leaver none |
| Relay.VanishedPeerSkipped | TestServer/TestServer/Program.cs:342-347 | a client removed between the snapshot and the lookup receives nothing and is announced to no one |
| Relay.Registry.Snapshot | TestServer/TestServer/Program.cs:332-333 | the snapshot lists every registered id exactly once and nothing else |
| Relay.Registry.Admit | TestServer/TestServer/Program.cs:330-336 | the locked section adds the newcomer, returns the new count, and snapshots exactly the earlier ids |
| Relay.Registry.Introduce | TestServer/TestServer/Program.cs:338-369 | the loop sends the introduction plan up to and including the first exception, and reports whether one was raised |
| Relay.Registry.OnConnected | TestServer/TestServer/Program.cs:324-372 | a bad port throws before anything is added; otherwise the client is added, the count is the new size unless a SendTo throws, and the datagrams are the introductions attempted, each with a 16-byte IV, a 32-byte key and a valid port |
| Relay.Registry.OnDataReceived | TestServer/TestServer/Program.cs:374-408 | an unknown guid throws and changes nothing; otherwise only the sender's state changes and the update goes to the other snapshot ids still registered, each datagram with a 16-byte IV, a 32-byte key and a valid port |
| Relay.Registry.Notify | TestServer/TestServer/Program.cs:385-407 | the loop sends the update plan, without the sender, up to and including the first exception |
| Relay.Registry.OnDisconnected | TestServer/TestServer/Program.cs:410-462 | the guid is removed; an absent guid gives -1 and no datagram; a present one gives the remaining count, even when a SendTo throws, and notifies the remaining clients, each datagram with a 16-byte IV, a 32-byte key and a valid port |
| Relay.Registry.Announce | TestServer/TestServer/Program.cs:429-448 | the loop sends the disconnect plan up to and including the first exception |
| Server.SessionKeys | TestServer/TestServer/Program.cs:168-199 | a successful key exchange consumed two full RSA blocks and yields a 16-byte IV and a 32-byte key |
| Server.ClientPort | TestServer/TestServer/Program.cs:219-251 | a successful port read consumed at least one byte |
| Server.HandshakeSpec | TestServer/TestServer/Program.cs:155-252 | a successful handshake yields a 16-byte IV and a 32-byte key and consumed part of the client's bytes |
| Server.ReceiveSessionKeys | TestServer/TestServer/Program.cs:168-199 | receiving and decrypting the key blocks gives `SessionKeys` of the bytes still to come, and consumes two blocks |
| Server.ReceivePort | TestServer/TestServer/Program.cs:219-251 | receiving the port gives `ClientPort` of the bytes still to come, and consumes that frame |
| Server.Handshake | TestServer/TestServer/Program.cs:155-252 | the handshake succeeds or fails as `HandshakeSpec` says; on success the client has been sent the exponent, the modulus and the welcome frame sealed with the agreed session |
| Server.HandshakeAgreement | TestServer/TestServer/Program.cs:182-198 | when a client sends its IV and key, each in one RSA block that decrypts to any padding followed by them, then a port frame, the server ends up with that very IV, key and port |
| Server.HandshakeShortRead | TestServer/TestServer/Program.cs:172-178 | a client that disconnects inside the first RSA block ends the handshake with a closed connection |
| Server.ServeMessages | TestServer/TestServer/Program.cs:258-291 | the message loop changes only the state of the client's own record in the registry; its endpoint, IV and key stay |
| Server.RunSession | TestServer/TestServer/Program.cs:254-314 | after OnConnected, the loop and OnDisconnected, the registry is as it was; the final count is its size, or -1 with nothing sent when the port was refused |
| Server.AddThenRemove | TestServer/TestServer/Program.cs:334 | adding a fresh guid and removing it again restores the registry |
| Server.HandleClient | TestServer/TestServer/Program.cs:130-322 | a worker leaves the registry as it found it; OnDisconnected returns -1 exactly when the handshake failed or the port was refused, and then no datagram was sent, so a failed handshake never admits the client |
| Scenarios.HelloThenJoin | TestServer/TestServer/Program.cs:338-369 | with a and b holding sessions of their own, after a connects and sends "hello", b's arrival sends exactly `"<a>|hello"` to b at b's endpoint under b's IV and key, then `"<b>|CONNECTED"` to a at a's endpoint under a's IV and key |
| Scenarios.ThreeJoin | TestServer/TestServer/Program.cs:338-369 | when a, b and c connect in that order, c hears `"<a>|CONNECTED"` once and `"<b>|CONNECTED"` once (two datagrams in all), and a and b each hear only `"<c>|CONNECTED"`, once |
| Scenarios.LeaveOfThree | TestServer/TestServer/Program.cs:410-462 | removing b from {a, b, c} leaves two clients and notifies a once, c once and b never |
| Scenarios.ShortSendToOnePeer | TestServer/TestServer/Program.cs:400-404 | a short datagram to one peer does not stop the update reaching another |

## Left out

- AES-CBC encryption and decryption, RSA PKCS#1 decryption and `int.Parse` are parameters
  (`Server.Primitives`), not code. Their internals are outside the model. So is the
  round-trip of AES itself; `Server.HandshakeAgreement` proves that both sides hold the same
  IV and key.
- RSA key generation (`RSA.Create`, `KeySize = 1024`, `ExportParameters`) is outside the
  model. The public key is the parameter `Server.RsaPublic`.
- The listening socket, the accept loop (`HandleServer`), threads and `Main` are outside the
  model. A worker is the method `Server.HandleClient` on one connection.
- Interleaving finer than one handler is not modelled:
  - each handler runs from its locked section through its fan-out without another worker in
    between;
  - the lock around `Client.Plaintext` is therefore not needed.
- `Guid.NewGuid` is not modelled. Its freshness is the precondition `id !in clients`.
- The welcome text includes the assembly version, which reflection supplies. It is the
  parameter `welcome`.
- Console logging is not modelled: connection counts, error messages and the "Failed to send
  datagram" line.
- AES encryption (`Encrypt`) is modelled as never failing: `Server.Primitives.encrypt` is a
  total function, so an exception thrown by `Encrypt` is not modelled anywhere.
- Sockets are not closed explicitly, and the per-client UDP socket is not modelled.
- `SendTo` is modelled only through its outcome, by the `Network` oracle. The outcome is a
  function of the datagram alone: the same datagram sent twice (one text relayed twice to the
  same peer) always meets the same outcome. No contract depends on this.
- The order of `Dictionary.Keys` is left open (any order). No lemma depends on it.
- Server.SessionKeys: its own contract states only the bytes consumed and the key lengths. What
  it computes is stated by `Server.HandshakeAgreement` and by `Server.ReceiveSessionKeys`,
  which is proved equal to it.
- Server.ClientPort: its own contract states only that bytes were consumed. What it computes
  is stated by `Server.HandshakeAgreement` and by `Server.ReceivePort`, which is proved equal
  to it.
- Server.HandshakeSpec: its own contract states only the key lengths and that bytes were
  consumed. What it computes is stated by `Server.HandshakeAgreement`,
  `Server.HandshakeShortRead` and `Server.Handshake`, which is proved equal to it.
- Server.ServeMessages: its contract states only what it does to the registry. The datagrams
  of each round are those of `Relay.Registry.OnDataReceived`, which states them.
- Server.RunSession: the datagrams sent when the client was admitted are not spelled out; each
  handler call states its own. It shows one worker running alone.
- Server.HandleClient: the datagrams sent when the client was admitted are not spelled out;
  each handler call states its own. It shows one worker running alone.
- The client programs (`TestClient`) and the C++ test are not part of this model.
