/** The TCP connection of one client as the worker sees it, the exact-length
    receive loops, and the length-prefixed frame. */
module Transport {
  import opened Outcomes
  import opened Bytes

  function Flatten(chunks: seq<seq<byte>>): seq<byte>
  {
    if chunks == [] then [] else chunks[0] + Flatten(chunks[1..])
  }

  /** The accepted socket. `chunks` are the pieces in which the peer's bytes
      arrive (one Receive never crosses a piece boundary); when they run out
      the peer has closed its side. `written` is what the server has sent and
      `room` how many more bytes the peer will take before a Send comes up short. */
  class Connection {
    var chunks: seq<seq<byte>>
    var written: seq<byte>
    var room: nat

    ghost predicate Valid()
      reads this
    {
      forall i :: 0 <= i < |chunks| ==> chunks[i] != []
    }

    /** The bytes the peer has yet to deliver. */
    ghost function Pending(): seq<byte>
      reads this
    {
      Flatten(chunks)
    }

    constructor (arrivals: seq<seq<byte>>, room: nat)
      requires forall i :: 0 <= i < |arrivals| ==> arrivals[i] != []
      ensures Valid() && chunks == arrivals && written == [] && this.room == room
    {
      chunks, written, this.room := arrivals, [], room;
    }

    /** Socket.Receive(buffer, offset, size, SocketFlags.None): copies the next
        at most `size` available bytes to buffer[offset..] and returns how many;
        0 means the peer has closed the connection. */
    method Receive(buffer: array<byte>, offset: nat, size: nat) returns (n: nat)
      requires Valid() && offset + size <= buffer.Length
      modifies this`chunks, buffer
      ensures Valid()
      ensures n <= size && n <= |old(Pending())|
      ensures n == 0 <==> size == 0 || old(Pending()) == []
      ensures Pending() == old(Pending())[n..]
      ensures buffer[..] == old(buffer[..])[..offset] + old(Pending())[..n] + old(buffer[..])[offset + n..]
    {
      if size == 0 || chunks == [] {
        return 0;
      }
      var c := chunks[0];
      n := if size < |c| then size else |c|;
      forall i | offset <= i < offset + n {
        buffer[i] := c[i - offset];
      }
      if n < |c| {
        assert c + Flatten(chunks[1..]) == c[..n] + (c[n..] + Flatten(chunks[1..]));
        chunks := [c[n..]] + chunks[1..];
        assert chunks[1..] == old(chunks)[1..];
      } else {
        chunks := chunks[1..];
      }
    }

    /** Socket.Send(bytes, bytes.Length, SocketFlags.None): returns how many bytes went out. */
    method Send(bytes: seq<byte>) returns (n: nat)
      modifies this`written, this`room
      ensures n == if |bytes| <= old(room) then |bytes| else old(room)
      ensures written == old(written) + bytes[..n] && room == old(room) - n
    {
      n := if |bytes| <= room then |bytes| else room;
      written, room := written + bytes[..n], room - n;
    }
  }

  /** The loop `while (received < data.Length) { … Receive … }` of the worker:
      fills `data` completely, or fails when a Receive returns 0. */
  method ReceiveExact(conn: Connection, data: array<byte>) returns (ok: bool)
    requires conn.Valid()
    modifies conn`chunks, data
    ensures conn.Valid()
    ensures ok <==> data.Length <= |old(conn.Pending())|
    ensures ok ==> data[..] == old(conn.Pending())[..data.Length]
    ensures ok ==> conn.Pending() == old(conn.Pending())[data.Length..]
    ensures !ok ==> conn.Pending() == []
  {
    ghost var input := conn.Pending();
    var received := 0;
    while received < data.Length
      invariant 0 <= received <= data.Length
      invariant received <= |input| && conn.Pending() == input[received..]
      invariant conn.Valid()
      invariant data[..received] == input[..received]
    {
      var n := conn.Receive(data, received, data.Length - received);
      if n == 0 {
        return false;
      }
      received := received + n;
    }
    return true;
  }

  /** What the server writes for one message: BitConverter.GetBytes(length)
      followed by the ciphertext. */
  function EncodeFrame(body: ByteArray): (f: seq<byte>)
    ensures |f| == 4 + |body|
  {
    GetBytes(|body| as int32) + body
  }

  /** The frame at the head of the stream `s`: its body and what follows it. */
  function ReadFrame(s: seq<byte>): (r: Result<(ByteArray, seq<byte>)>)
    ensures r.Ok? ==> s == EncodeFrame(r.value.0) + r.value.1
    ensures r.Err? ==> r.fault == ConnectionClosed || (r.fault == NegativeLength && |s| >= 4 && s[3] >= 0x80)
    ensures |s| >= 4 && s[3] >= 0x80 ==> r == Err(NegativeLength)
  {
    if |s| < 4 then Err(ConnectionClosed)
    else
      var n := ToInt32(s[..4]);
      if n < 0 then Err(NegativeLength)
      else if |s| - 4 < n as int then Err(ConnectionClosed)
      else
        GetBytesOfToInt32(s[..4]);
        assert s == s[..4] + s[4..4 + n as int] + s[4 + n as int..];
        Ok((s[4..4 + n as int], s[4 + n as int..]))
  }

  /** A frame followed by anything reads back as that frame. */
  lemma ReadFrameOfEncodeFrame(body: ByteArray, rest: seq<byte>)
    ensures ReadFrame(EncodeFrame(body) + rest) == Ok((body, rest))
  {
    var s := EncodeFrame(body) + rest;
    assert s[..4] == GetBytes(|body| as int32);
    ToInt32OfGetBytes(|body| as int32);
    assert s[4..4 + |body|] == body;
    assert s[4 + |body|..] == rest;
  }

  /** A stream that ends inside a frame is a closed connection, never a shorter frame. */
  lemma TruncatedFrame(body: ByteArray, cut: nat)
    requires cut < |EncodeFrame(body)|
    ensures ReadFrame(EncodeFrame(body)[..cut]) == Err(ConnectionClosed)
  {
    var f := EncodeFrame(body);
    if cut >= 4 {
      assert f[..cut][..4] == GetBytes(|body| as int32);
      ToInt32OfGetBytes(|body| as int32);
    }
  }

  /** The frame the worker receives (the prefix loop, `new byte[length]`, the body
      loop): exactly the frame ReadFrame finds at the head of the pending bytes. */
  method ReceiveFrame(conn: Connection) returns (r: Result<ByteArray>)
    requires conn.Valid()
    modifies conn`chunks
    ensures conn.Valid()
    ensures ReadFrame(old(conn.Pending())).Ok? <==> r.Ok?
    ensures r.Ok? ==> r.value == ReadFrame(old(conn.Pending())).value.0
    ensures r.Ok? ==> conn.Pending() == ReadFrame(old(conn.Pending())).value.1
    ensures r.Err? ==> r.fault == ReadFrame(old(conn.Pending())).fault
  {
    var bytes := new byte[4];
    var ok := ReceiveExact(conn, bytes);
    if !ok {
      return Err(ConnectionClosed);
    }
    var length := ToInt32(bytes[..]);
    if length < 0 {
      return Err(NegativeLength);
    }
    var ciphertext := new byte[length];
    ok := ReceiveExact(conn, ciphertext);
    if !ok {
      return Err(ConnectionClosed);
    }
    return Ok(ciphertext[..]);
  }
}
