/** Exactly which replies are delivered, and in how many rounds. */
module RtpTheorems {
  import opened Basics
  import opened RtpModel

  // ----- the checksums' operation, and the buffer -----

  /** Digit k of an integer in two's complement. */
  predicate Digit(n: int, k: nat)
    decreases k
  {
    if k == 0 then n % 2 == 1 else Digit(n / 2, k - 1)
  }

  /** Exclusive or, digit by digit. */
  lemma {:induction false} XorDigits(a: int, b: int, k: nat)
    ensures Digit(Xor(a, b), k) <==> Digit(a, k) != Digit(b, k)
    decreases k
  {
    if k > 0 {
      XorDigits(a / 2, b / 2, k - 1);
    }
    XorHead(a, b);
  }

  lemma XorHead(a: int, b: int)
    ensures Xor(a, b) / 2 == Xor(a / 2, b / 2) && (Xor(a, b) % 2 == 1 <==> a % 2 != b % 2)
  {
    XorHalves(a, b);
    Doubled(Xor(a / 2, b / 2), (a % 2 + b % 2) % 2);
  }

  lemma Doubled(h: int, low: int)
    requires 0 <= low < 2
    ensures (2 * h + low) / 2 == h && (2 * h + low) % 2 == low
  {
  }

  /** When the bytes do not fit, the buffer grows to twice its size and room for all of them. */
  lemma AcceptGrows(c: Client, p: Packet)
    requires p.length <= |p.payload|
    ensures |c.data| + p.length <= c.capacity ==> Accept(c, p).capacity == c.capacity
    ensures |c.data| + p.length > c.capacity
            ==> Accept(c, p).capacity == 2 * c.capacity + |c.data| + p.length
  {
  }

  // ----- signed and unsigned checksums -----

  function Sign(k: nat, high: bool): nat
  {
    if high then Pow2(k) else 0
  }

  /** Bits from k on act as one sign bit each. */
  lemma {:induction false} XorSign(k: nat, v: int, w: int, i: bool, j: bool, a: int, b: int)
    requires 0 <= v < Pow2(k) && 0 <= w < Pow2(k) && a == v - Sign(k, i) && b == w - Sign(k, j)
    ensures 0 <= Xor(v, w) < Pow2(k) && Xor(a, b) == Xor(v, w) - Sign(k, i != j)
    decreases k
  {
    if k == 0 {
      XorSigns(i, j);
    } else {
      Halve(v, a, k, i);
      Halve(w, b, k, j);
      var l := k - 1;
      XorSign(l, v / 2, w / 2, i, j, a / 2, b / 2);
      XorHalves(a, b);
      XorHalves(v, w);
    }
  }

  lemma XorSigns(i: bool, j: bool)
    ensures Xor(0, 0) == 0 && Xor(if i then -1 else 0, if j then -1 else 0) == if i != j then -1 else 0
  {
  }

  lemma Halve(v: int, a: int, k: nat, high: bool)
    requires k > 0 && a == v - Sign(k, high)
    ensures a / 2 == v / 2 - Sign(k - 1, high) && a % 2 == v % 2
  {
  }

  lemma XorHalves(a: int, b: int)
    ensures Xor(a, b) == 2 * Xor(a / 2, b / 2) + (a % 2 + b % 2) % 2
  {
  }

  /** An odd number of the bytes has its high bit set. */
  predicate OddHighs(p: seq<Byte>)
  {
    p != [] && (OddHighs(p[..|p| - 1]) != (p[|p| - 1] >= 128))
  }

  lemma XorByte(v: int, w: int, i: bool, j: bool)
    requires 0 <= v < 256 && 0 <= w < 256
    ensures 0 <= Xor(v, w) < 256
    ensures Xor(v - (if i then 256 else 0), w - (if j then 256 else 0)) == Xor(v, w) - if i != j then 256 else 0
  {
    assert Pow2(8) == 256;
    XorSign(8, v, w, i, j, v - Sign(8, i), w - Sign(8, j));
  }

  /** The receiver's sum is the sender's, less 256 if an odd number of bytes has the high bit. */
  lemma {:induction false} SumsDiffer(p: seq<Byte>)
    ensures 0 <= ServerSum(p) < 256 && ClientSum(p) == ServerSum(p) - if OddHighs(p) then 256 else 0
  {
    if p != [] {
      var init, b := p[..|p| - 1], p[|p| - 1];
      SumsDiffer(init);
      XorByte(ServerSum(init), b, OddHighs(init), b >= 128);
    }
  }

  // ----- rounds -----

  /** A packet gets through exactly when its checksum is not corrupted and an even number of its bytes has the high
      bit. */
  lemma AcceptsIff(msg: seq<Byte>, i: nat, hit: bool)
    requires i < NumPackets(|msg|)
    ensures Accepts(Corrupt(PacketAt(msg, i), hit)) <==> !hit && !OddHighs(Payload(msg, i))
  {
    var p := Payload(msg, i);
    assert Pad(p)[..|p|] == p;
    SumsDiffer(p);
  }

  /** The first packet that never gets through, or the number of packets. */
  function FirstOdd(msg: seq<Byte>, i: nat): (k: nat)
    requires i <= NumPackets(|msg|)
    ensures i <= k <= NumPackets(|msg|)
    ensures k < NumPackets(|msg|) ==> OddHighs(Payload(msg, k))
    ensures forall j :: i <= j < k ==> !OddHighs(Payload(msg, j))
    decreases NumPackets(|msg|) - i
  {
    if i == NumPackets(|msg|) || OddHighs(Payload(msg, i)) then i else FirstOdd(msg, i + 1)
  }

  function Clean(hits: seq<bool>): nat
  {
    if hits == [] then 0 else Clean(hits[..|hits| - 1]) + if hits[|hits| - 1] then 0 else 1
  }

  function Hits(hits: seq<bool>): nat
  {
    if hits == [] then 0 else Hits(hits[..|hits| - 1]) + if hits[|hits| - 1] then 1 else 0
  }

  /** The part of the reply in the first g packets. */
  function Sent(msg: seq<Byte>, g: nat): seq<Byte>
    requires g <= NumPackets(|msg|)
  {
    msg[..Min(MAXPAYLOAD * g, |msg|)]
  }

  lemma SentNext(msg: seq<Byte>, g: nat)
    requires g < NumPackets(|msg|)
    ensures Sent(msg, g) + Payload(msg, g) == Sent(msg, g + 1)
  {
  }

  /** Sender and receiver after g packets got through. */
  ghost predicate InStep(msg: seq<Byte>, g: nat, s: Net)
    requires g <= NumPackets(|msg|)
  {
    && s.i == g && s.client.data == Sent(msg, g) && !s.client.crashed
    && (s.client.done <==> g == NumPackets(|msg|))
    && (if s.client.hasBuffer then |s.client.data| <= s.client.capacity
        else s.client.capacity == 1 && s.client.data == [])
  }

  lemma AcceptInStep(msg: seq<Byte>, g: nat, s: Net)
    requires |msg| != 1 && g < NumPackets(|msg|) && InStep(msg, g, s)
    ensures var c := Accept(s.client, PacketAt(msg, g));
            !c.crashed && InStep(msg, g + 1, Net(g + 1, c))
  {
    SentNext(msg, g);
    var p := Payload(msg, g);
    assert Pad(p)[..|p|] == p;
    assert g == 0 ==> |p| == 0 || |p| >= 2;
  }

  /** A corrupted packet, or one that cannot pass, or none left: nothing happens. */
  lemma RoundStays(msg: seq<Byte>, g: nat, s: Net, hit: bool)
    requires g <= FirstOdd(msg, 0) && InStep(msg, g, s) && (hit || g == FirstOdd(msg, 0))
    ensures Round(msg, s, hit) == s
  {
    if g < NumPackets(|msg|) {
      AcceptsIff(msg, g, hit);
    }
  }

  lemma RoundMoves(msg: seq<Byte>, g: nat, s: Net)
    requires |msg| != 1 && g < FirstOdd(msg, 0) && InStep(msg, g, s)
    ensures g < NumPackets(|msg|) && InStep(msg, g + 1, Round(msg, s, false))
  {
    AcceptsIff(msg, g, false);
    AcceptInStep(msg, g, s);
  }

  lemma RoundInStep(msg: seq<Byte>, g: nat, s: Net, hit: bool)
    requires |msg| != 1 && g <= FirstOdd(msg, 0) && InStep(msg, g, s)
    ensures InStep(msg, if hit then g else Min(g + 1, FirstOdd(msg, 0)), Round(msg, s, hit))
  {
    if hit || g == FirstOdd(msg, 0) {
      RoundStays(msg, g, s, hit);
    } else {
      RoundMoves(msg, g, s);
    }
  }

  lemma {:induction false} RunInStep(msg: seq<Byte>, hits: seq<bool>)
    requires |msg| != 1
    ensures InStep(msg, Min(Clean(hits), FirstOdd(msg, 0)), Run(msg, hits))
  {
    if hits == [] {
      assert Sent(msg, 0) == [];
    } else {
      var before, hit := hits[..|hits| - 1], hits[|hits| - 1];
      RunInStep(msg, before);
      RoundInStep(msg, Min(Clean(before), FirstOdd(msg, 0)), Run(msg, before), hit);
    }
  }

  /** A reply arrives, followed by a NUL, exactly when each packet has an even number of high bytes and enough rounds
      are clean; nothing else is ever taken for the whole reply. */
  lemma DeliveredIff(msg: seq<Byte>, hits: seq<bool>)
    requires |msg| != 1
    ensures Run(msg, hits).client.done <==> FirstOdd(msg, 0) == NumPackets(|msg|) && Clean(hits) >= NumPackets(|msg|)
    ensures Run(msg, hits).client.done ==> Message(Run(msg, hits).client) == msg + [0]
  {
    RunInStep(msg, hits);
    assert Sent(msg, NumPackets(|msg|)) == msg;
  }

  lemma {:induction false} CleanAndHits(hits: seq<bool>)
    ensures Clean(hits) + Hits(hits) == |hits|
  {
    if hits != [] {
      CleanAndHits(hits[..|hits| - 1]);
    }
  }

  /** The run ends after exactly as many rounds as there are packets and corruptions. */
  lemma RoundsTaken(msg: seq<Byte>, hits: seq<bool>)
    requires |msg| != 1 && hits != []
    requires Run(msg, hits).client.done && !Run(msg, hits[..|hits| - 1]).client.done
    ensures |hits| == NumPackets(|msg|) + Hits(hits)
  {
    DeliveredIff(msg, hits);
    DeliveredIff(msg, hits[..|hits| - 1]);
    CleanAndHits(hits);
  }

  lemma {:induction false} NoHighs(p: seq<Byte>)
    requires forall k :: 0 <= k < |p| ==> p[k] < 128
    ensures !OddHighs(p)
  {
    if p != [] {
      NoHighs(p[..|p| - 1]);
    }
  }

  /** Seven-bit replies always get through. */
  lemma SevenBitPasses(msg: seq<Byte>)
    requires forall k :: 0 <= k < |msg| ==> msg[k] < 128
    ensures FirstOdd(msg, 0) == NumPackets(|msg|)
  {
    var k := FirstOdd(msg, 0);
    if k < NumPackets(|msg|) {
      NoHighs(Payload(msg, k));
    }
  }

  /** A one-byte reply never arrives: the receiver, still without a buffer, copies it to NULL. */
  lemma {:induction false} OneByteCrashesIff(msg: seq<Byte>, hits: seq<bool>)
    requires |msg| == 1
    ensures !Run(msg, hits).client.done
    ensures Run(msg, hits).client.crashed <==> msg[0] < 128 && Clean(hits) > 0
    ensures !Run(msg, hits).client.crashed ==> Run(msg, hits) == Net(0, NewClient())
  {
    if hits != [] {
      var before, hit := hits[..|hits| - 1], hits[|hits| - 1];
      OneByteCrashesIff(msg, before);
      AcceptsIff(msg, 0, hit);
      assert Payload(msg, 0) == msg && msg[..0] == [];
      assert OddHighs(msg) == (msg[0] >= 128);
    }
  }

  /** At every point of a run the two ends agree, on one packet for each clean round up to the first that cannot pass;
      for every reply but the one of a single seven-bit byte, and for that one until the first clean round. */
  lemma RunInStepIff(msg: seq<Byte>, hits: seq<bool>)
    ensures InStep(msg, Min(Clean(hits), FirstOdd(msg, 0)), Run(msg, hits))
            <==> |msg| != 1 || msg[0] >= 128 || Clean(hits) == 0
  {
    if |msg| != 1 {
      RunInStep(msg, hits);
    } else {
      OneByteCrashesIff(msg, hits);
      assert Payload(msg, 0) == msg && msg[..0] == [];
      assert OddHighs(msg) == (msg[0] >= 128);
      assert Sent(msg, 0) == [];
    }
  }
}
