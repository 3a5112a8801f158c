/** The two programs: the server's packet list and index, and the client's growing receive buffer. */
module Rtp {
  import opened RtpModel
  import opened RtpTheorems

  // ----- prj7-server.py -----

  method ServerChecksum(msg: seq<Byte>) returns (ret: int)
    ensures ret == ServerSum(msg)
  {
    ret := 0;
    var k := 0;
    while k < |msg|
      invariant 0 <= k <= |msg| && ret == ServerSum(msg[..k])
    {
      ret := Xor(ret, msg[k]);
      k := k + 1;
      assert msg[..k][..k - 1] == msg[..k - 1];
    }
    assert msg[..k] == msg;
  }

  /** The first n packets of the message. */
  predicate AreFirst(packets: seq<Packet>, msg: seq<Byte>, n: nat)
  {
    n == |packets| <= NumPackets(|msg|) && forall i :: 0 <= i < n ==> packets[i] == PacketAt(msg, i)
  }

  lemma AppendNext(packets: seq<Packet>, msg: seq<Byte>, n: nat, p: Packet)
    requires AreFirst(packets, msg, n) && n < NumPackets(|msg|) && p == PacketAt(msg, n)
    ensures AreFirst(packets + [p], msg, n + 1)
  {
    var more := packets + [p];
    forall i | 0 <= i <= n
      ensures more[i] == PacketAt(msg, i)
    {
      assert more[i] == if i < n then packets[i] else p;
    }
  }

  method MakePacket(msg: seq<Byte>, x: nat, payload: seq<Byte>, kind: Kind) returns (p: Packet)
    requires x < NumPackets(|msg|) && payload == Payload(msg, x)
    requires kind == if x == NumPackets(|msg|) - 1 then LastData else Data
    ensures p == PacketAt(msg, x)
  {
    var sum := ServerChecksum(payload);
    p := Packet(kind, sum, |payload|, Pad(payload));
  }

  /** The slices packetize takes. */
  lemma ServerSlices(msg: seq<Byte>, num: nat)
    requires num == |msg| / MAXPAYLOAD + if |msg| % MAXPAYLOAD != 0 then 1 else 0
    ensures num == if |msg| == 0 then 0 else NumPackets(|msg|)
    ensures msg[if num == 0 then 0 else (num - 1) * MAXPAYLOAD..] == Payload(msg, NumPackets(|msg|) - 1)
  {
  }

  /** packetize; an empty message makes one empty packet, because a slice may start before the beginning. */
  method ServerPacketize(msg: seq<Byte>) returns (packets: seq<Packet>)
    ensures AreFirst(packets, msg, NumPackets(|msg|))
  {
    var num := |msg| / MAXPAYLOAD + if |msg| % MAXPAYLOAD != 0 then 1 else 0;
    ServerSlices(msg, num);
    packets := [];
    var x := 0;
    while x < num - 1
      invariant 0 <= x <= NumPackets(|msg|) - 1
      invariant AreFirst(packets, msg, x)
    {
      var p := MakePacket(msg, x, msg[x * MAXPAYLOAD..x * MAXPAYLOAD + MAXPAYLOAD], Data);
      AppendNext(packets, msg, x, p);
      packets := packets + [p];
      x := x + 1;
    }
    var p := MakePacket(msg, x, msg[if num == 0 then 0 else (num - 1) * MAXPAYLOAD..], LastData);
    AppendNext(packets, msg, x, p);
    packets := packets + [p];
  }

  /** The sending half of runServer. */
  class Sender {
    var packets: seq<Packet>
    var i: nat

    ghost predicate Sends(msg: seq<Byte>)
      reads this
    {
      AreFirst(packets, msg, NumPackets(|msg|))
    }

    constructor (msg: seq<Byte>)
      ensures i == 0 && Sends(msg)
    {
      var made := ServerPacketize(msg);
      i, packets := 0, made;
    }

    method NextPacket(hit: bool) returns (p: Packet)
      requires i < |packets|
      ensures p == Corrupt(packets[i], hit)
    {
      p := packets[i];
      if hit {
        p := p.(checksum := p.checksum + 13);
      }
    }

    method OnReply(ack: bool)
      requires i < |packets|
      modifies `i
      ensures i == old(i) + if ack then 1 else 0
    {
      i := i + if ack then 1 else 0;
    }
  }

  // ----- rtp.c -----

  method ClientChecksum(buffer: seq<Byte>, length: nat) returns (checksum: int)
    requires length <= |buffer|
    ensures checksum == ClientSum(buffer[..length])
  {
    checksum := 0;
    var k := 0;
    while k < length
      invariant 0 <= k <= length && checksum == ClientSum(buffer[..k])
    {
      checksum := Xor(checksum, Signed(buffer[k]));
      k := k + 1;
      assert buffer[..k][..k - 1] == buffer[..k - 1];
    }
  }

  /** The client's own packets differ from the server's in the checksum only. */
  function ClientPacketAt(msg: seq<Byte>, i: nat): Packet
    requires i < NumPackets(|msg|)
  {
    PacketAt(msg, i).(checksum := ClientSum(Payload(msg, i)))
  }

  lemma CountIs(length: nat)
    requires length > 0
    ensures NumPackets(length) == length / MAXPAYLOAD + (if length % MAXPAYLOAD == 0 then 0 else 1) <= length
    ensures length == MAXPAYLOAD * (NumPackets(length) - 1)
                      + if length % MAXPAYLOAD == 0 then MAXPAYLOAD else length % MAXPAYLOAD
  {
  }

  lemma PayloadLength(msg: seq<Byte>, i: nat)
    requires |msg| > 0 && i < NumPackets(|msg|)
    ensures |Payload(msg, i)|
            == if i < NumPackets(|msg|) - 1 || |msg| % MAXPAYLOAD == 0 then MAXPAYLOAD else |msg| % MAXPAYLOAD
  {
    CountIs(|msg|);
  }

  /** Packet i, with n bytes of payload. */
  method FillPacket(buffer: seq<Byte>, i: nat, n: nat, kind: Kind) returns (p: Packet)
    requires i < NumPackets(|buffer|) && n == |Payload(buffer, i)|
    requires kind.LastData? <==> i == NumPackets(|buffer|) - 1
    ensures p == ClientPacketAt(buffer, i)
  {
    var payload := buffer[i * MAXPAYLOAD..i * MAXPAYLOAD + n];
    assert payload == Payload(buffer, i) && payload[..n] == payload;
    var sum := ClientChecksum(payload, n);
    p := Packet(kind, sum, n, Pad(payload));
  }

  /** The bytes a packet carries. */
  function Carried(p: Packet): seq<Byte>
  {
    p.payload[..if p.length <= |p.payload| then p.length else |p.payload|]
  }

  function Joined(packets: seq<Packet>): seq<Byte>
  {
    if packets == [] then [] else Joined(packets[..|packets| - 1]) + Carried(packets[|packets| - 1])
  }

  /** The last of the client's packets and no other is LAST_DATA; all but the last are full and none is empty; and each
      would pass the client's own check. */
  lemma ClientPacketIs(msg: seq<Byte>, i: nat)
    requires |msg| > 0 && i < NumPackets(|msg|)
    ensures var p := ClientPacketAt(msg, i);
            && (p.kind.LastData? <==> i == NumPackets(|msg|) - 1) && Accepts(p)
            && 0 < p.length <= MAXPAYLOAD == |p.payload| && (i < NumPackets(|msg|) - 1 ==> p.length == MAXPAYLOAD)
            && Sent(msg, i) + Carried(p) == Sent(msg, i + 1)
  {
    PayloadLength(msg, i);
    CountIs(|msg|);
    assert Carried(ClientPacketAt(msg, i)) == Payload(msg, i);
    SentNext(msg, i);
  }

  /** And they join to the message. */
  lemma {:induction false} ClientPacketsJoin(msg: seq<Byte>, packets: seq<Packet>, n: nat)
    requires |msg| > 0 && Filled(packets, msg, n) && n == |packets|
    ensures Joined(packets) == Sent(msg, n) && (n == NumPackets(|msg|) ==> Joined(packets) == msg)
  {
    if n > 0 {
      ClientPacketsJoin(msg, packets[..n - 1], n - 1);
      ClientPacketIs(msg, n - 1);
      assert packets[n - 1] == ClientPacketAt(msg, n - 1);
    }
    if n == NumPackets(|msg|) {
      assert Sent(msg, n) == msg;
    }
  }

  method Counts(length: nat) returns (count: nat, last: nat, lastLength: nat)
    requires length > 0
    ensures count == NumPackets(length) == last + 1 <= length
    ensures lastLength == if length % MAXPAYLOAD == 0 then MAXPAYLOAD else length % MAXPAYLOAD
  {
    CountIs(length);
    lastLength := length % MAXPAYLOAD;
    count := length / MAXPAYLOAD;
    if lastLength == 0 {
      lastLength := MAXPAYLOAD;
    } else {
      count := count + 1;
    }
    last := count - 1;
  }

  predicate Filled(packets: seq<Packet>, msg: seq<Byte>, n: nat)
  {
    n <= NumPackets(|msg|) && n <= |packets| && forall i :: 0 <= i < n ==> packets[i] == ClientPacketAt(msg, i)
  }

  lemma FillNext(packets: seq<Packet>, msg: seq<Byte>, n: nat, p: Packet)
    requires Filled(packets, msg, n) && n < |packets| && n < NumPackets(|msg|) && p == ClientPacketAt(msg, n)
    ensures Filled(packets[n := p], msg, n + 1)
  {
  }

  /** packetize of rtp.c, for a message that is not empty; it allocates one packet for each byte. */
  method ClientPacketize(buffer: seq<Byte>) returns (packets: array<Packet>, count: nat)
    requires |buffer| > 0
    ensures fresh(packets) && packets.Length == |buffer| && count == NumPackets(|buffer|) <= packets.Length
    ensures Filled(packets[..], buffer, count)
  {
    packets := new Packet[|buffer|](_ => Packet(Data, 0, 0, Pad([])));
    var last, lastLength;
    count, last, lastLength := Counts(|buffer|);
    var i := 0;
    while i < last
      invariant 0 <= i <= last
      invariant Filled(packets[..], buffer, i)
    {
      PayloadLength(buffer, i);
      var p := FillPacket(buffer, i, MAXPAYLOAD, Data);
      FillNext(packets[..], buffer, i, p);
      packets[i] := p;
      i := i + 1;
    }
    PayloadLength(buffer, last);
    var p := FillPacket(buffer, last, lastLength, LastData);
    FillNext(packets[..], buffer, last, p);
    packets[last] := p;
  }

  /** rtp_receive_message's local variables. */
  class Receiver {
    var buffer: array?<Byte>
    var capacity: nat
    var length: nat
    var done: bool
    var crashed: bool

    ghost predicate Valid()
      reads this
    {
      && length <= capacity
      && (buffer != null ==> buffer.Length == capacity)
      && (buffer == null ==> length == 0)
    }

    ghost function View(): Client
      requires Valid()
      reads this, buffer
    {
      Client(if buffer == null then [] else buffer[..length], capacity, buffer != null, done, crashed)
    }

    constructor ()
      ensures Valid() && View() == NewClient() && buffer == null
    {
      buffer, capacity, length, done, crashed := null, 1, 0, false, false;
    }

    /** realloc to a larger buffer. */
    method Grow(size: nat)
      requires Valid() && size >= capacity
      modifies this`buffer, this`capacity
      ensures Valid() && buffer != null && fresh(buffer) && capacity == size
      ensures buffer[..length] == if old(buffer) == null then [] else old(buffer[..length])
    {
      var bigger := new Byte[size];
      var k := 0;
      while k < length
        invariant 0 <= k <= length && Valid() && buffer == old(buffer) && bigger.Length == size
        invariant buffer != null ==> bigger[..k] == old(buffer[..k])
      {
        bigger[k] := buffer[k];
        k := k + 1;
      }
      buffer, capacity := bigger, size;
    }

    /** memcpy behind what is there already. */
    method Append(payload: seq<Byte>, n: nat)
      requires Valid() && buffer != null && n <= |payload| && length + n <= capacity
      modifies this`length, buffer
      ensures Valid() && buffer == old(buffer)
      ensures length == old(length) + n && buffer[..length] == old(buffer[..length]) + payload[..n]
    {
      var k := 0;
      while k < n
        invariant 0 <= k <= n && length == old(length) && Valid() && buffer == old(buffer)
        invariant buffer[..length] == old(buffer[..length])
        invariant buffer[length..length + k] == payload[..k]
      {
        buffer[length + k] := payload[k];
        k := k + 1;
      }
      length := length + n;
    }

    /** One turn of the receive loop; the result is the reply, ACK or NACK.  A crash gives none. */
    method Receive(p: Packet) returns (ack: bool)
      requires Valid() && p.length <= |p.payload|
      modifies this, buffer
      ensures Valid() && (buffer == old(buffer) || fresh(buffer))
      ensures View() == if Accepts(p) then Accept(old(View()), p) else old(View())
      ensures ack <==> Accepts(p) && !Accept(old(View()), p).crashed
    {
      var sum := ClientChecksum(p.payload, p.length);
      if p.checksum != sum {
        return false;
      }
      var n := length + p.length;
      if n > capacity {
        Grow(capacity * 2 + n);
      }
      if buffer == null && p.length > 0 {
        crashed := true;
        return false;
      }
      if buffer != null {
        Append(p.payload, p.length);
      }
      done := p.kind == LastData;
      ack := !crashed;
    }
  }

  /** Server and client are where the run of these rounds ends. */
  ghost predicate Reached(msg: seq<Byte>, hits: seq<bool>, sender: Sender, receiver: Receiver)
    reads sender, receiver, receiver.buffer
  {
    receiver.Valid() && sender.Sends(msg) && Run(msg, hits) == Net(sender.i, receiver.View())
  }

  /** One packet through the channel and its reply back. */
  method OneRound(msg: seq<Byte>, sender: Sender, receiver: Receiver, hit: bool)
    requires receiver.Valid() && sender.Sends(msg)
    modifies sender`i, receiver, receiver.buffer
    ensures receiver.Valid() && (receiver.buffer == old(receiver.buffer) || fresh(receiver.buffer))
    ensures Net(sender.i, receiver.View()) == Round(msg, old(Net(sender.i, receiver.View())), hit)
  {
    if sender.i < |sender.packets| && !receiver.crashed {
      var p := sender.NextPacket(hit);
      var ack := receiver.Receive(p);
      if !receiver.crashed {
        sender.OnReply(ack);
      }
    }
  }

  lemma NextRound(msg: seq<Byte>, hits: seq<bool>, k: nat, before: Net, net: Net)
    requires k < |hits| && before == Run(msg, hits[..k]) && net == Round(msg, before, hits[k])
    ensures Run(msg, hits[..k + 1]) == net
  {
    assert hits[..k + 1][..k] == hits[..k];
  }

  method NextOf(msg: seq<Byte>, hits: seq<bool>, k: nat, sender: Sender, receiver: Receiver)
    requires k < |hits| && Reached(msg, hits[..k], sender, receiver)
    modifies sender`i, receiver, receiver.buffer
    ensures Reached(msg, hits[..k + 1], sender, receiver)
    ensures receiver.buffer == old(receiver.buffer) || fresh(receiver.buffer)
  {
    ghost var before := Net(sender.i, receiver.View());
    OneRound(msg, sender, receiver, hits[k]);
    NextRound(msg, hits, k, before, Net(sender.i, receiver.View()));
  }

  /** Server and client connected by a channel that corrupts the checksums of the rounds marked in `hits`. */
  method Exchange(msg: seq<Byte>, hits: seq<bool>) returns (sender: Sender, receiver: Receiver)
    ensures receiver.Valid() && Run(msg, hits) == Net(sender.i, receiver.View())
  {
    sender := new Sender(msg);
    receiver := new Receiver();
    var k := 0;
    while k < |hits|
      invariant 0 <= k <= |hits|
      invariant Reached(msg, hits[..k], sender, receiver)
      invariant fresh(sender) && fresh(receiver) && (receiver.buffer != null ==> fresh(receiver.buffer))
    {
      NextOf(msg, hits, k, sender, receiver);
      k := k + 1;
    }
    assert hits[..k] == hits;
  }
}
