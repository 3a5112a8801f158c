/** The reply half of the stop-and-wait protocol: prj7-server.py sends, rtp.c receives, and some checksums are
    corrupted. */
module RtpModel {
  import opened Basics

  /** MAX_PAYLOAD_LENGTH. */
  const MAXPAYLOAD: nat := 10

  type Byte = x: int | 0 <= x < 256

  datatype Kind = Data | LastData

  /** A packet as sent: the payload is padded with NULs to its full length. */
  datatype Packet = Packet(kind: Kind, checksum: int, length: nat, payload: seq<Byte>)

  // ----- checksums -----

  /** Exclusive or of integers in two's complement. */
  function Xor(a: int, b: int): int
    decreases Abs(a) + Abs(b)
  {
    if (a == 0 || a == -1) && (b == 0 || b == -1) then (if a == b then 0 else -1)
    else 2 * Xor(a / 2, b / 2) + (a % 2 + b % 2) % 2
  }

  /** checksum of prj7-server.py. */
  function ServerSum(p: seq<Byte>): int
  {
    if p == [] then 0 else Xor(ServerSum(p[..|p| - 1]), p[|p| - 1])
  }

  /** A char is signed in rtp.c. */
  function Signed(b: Byte): int
  {
    if b >= 128 then b - 256 else b
  }

  /** checksum of rtp.c. */
  function ClientSum(p: seq<Byte>): int
  {
    if p == [] then 0 else Xor(ClientSum(p[..|p| - 1]), Signed(p[|p| - 1]))
  }

  // ----- packets -----

  function Pad(p: seq<Byte>): (w: seq<Byte>)
    ensures |w| >= MAXPAYLOAD && |w| >= |p| && w[..|p|] == p
    ensures |p| <= MAXPAYLOAD ==> |w| == MAXPAYLOAD
    decreases MAXPAYLOAD - |p|
  {
    if |p| >= MAXPAYLOAD then p else Pad(p + [0])
  }

  function NumPackets(n: nat): (k: nat)
    ensures k >= 1 && MAXPAYLOAD * (k - 1) <= n <= MAXPAYLOAD * k
    ensures n > 0 ==> MAXPAYLOAD * (k - 1) < n
  {
    if n == 0 then 1 else (n - 1) / MAXPAYLOAD + 1
  }

  function Payload(msg: seq<Byte>, i: nat): (p: seq<Byte>)
    requires i < NumPackets(|msg|)
    ensures |p| <= MAXPAYLOAD
  {
    if i == NumPackets(|msg|) - 1 then msg[MAXPAYLOAD * i..] else msg[MAXPAYLOAD * i..MAXPAYLOAD * (i + 1)]
  }

  /** Packet i of the server's packetize, as it goes on the wire when not corrupted. */
  function PacketAt(msg: seq<Byte>, i: nat): Packet
    requires i < NumPackets(|msg|)
  {
    var p := Payload(msg, i);
    Packet(if i == NumPackets(|msg|) - 1 then LastData else Data, ServerSum(p), |p|, Pad(p))
  }

  function Corrupt(p: Packet, hit: bool): Packet
  {
    if hit then p.(checksum := p.checksum + 13) else p
  }

  // ----- the receiver -----

  /** rtp_receive_message's variables: the bytes accepted, and the buffer's recorded capacity.  The buffer itself is
      NULL until it is first enlarged.  `crashed` stands for a copy to NULL. */
  datatype Client = Client(data: seq<Byte>, capacity: nat, hasBuffer: bool, done: bool, crashed: bool)

  function NewClient(): Client
  {
    Client([], 1, false, false, false)
  }

  predicate Accepts(p: Packet)
  {
    p.length <= |p.payload| && p.checksum == ClientSum(p.payload[..p.length])
  }

  function Accept(c: Client, p: Packet): Client
    requires p.length <= |p.payload|
  {
    var n := |c.data| + p.length;
    var grow := n > c.capacity;
    var c1 := c.(capacity := if grow then 2 * c.capacity + n else c.capacity, hasBuffer := c.hasBuffer || grow);
    if !c1.hasBuffer && p.length > 0 then c1.(crashed := true)
    else c1.(data := c.data + p.payload[..p.length], done := p.kind == LastData)
  }

  // ----- the two ends together -----

  datatype Net = Net(i: nat, client: Client)

  /** One packet sent and answered; a crashed receiver never answers. */
  function Round(msg: seq<Byte>, s: Net, hit: bool): Net
  {
    if s.i >= NumPackets(|msg|) || s.client.crashed then s
    else
      var p := Corrupt(PacketAt(msg, s.i), hit);
      if !Accepts(p) then s
      else
        var c := Accept(s.client, p);
        Net(if c.crashed then s.i else s.i + 1, c)
  }

  /** The rounds of a reply, told which of them are corrupted. */
  function Run(msg: seq<Byte>, hits: seq<bool>): Net
  {
    if hits == [] then Net(0, NewClient())
    else Round(msg, Run(msg, hits[..|hits| - 1]), hits[|hits| - 1])
  }

  /** What rtp_receive_message returns. */
  function Message(c: Client): seq<Byte>
  {
    c.data + [0]
  }
}
