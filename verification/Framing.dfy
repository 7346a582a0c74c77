// src/Utils/NetworkStream.cpp: a message travels as a four-byte length in network
// byte order followed by its bytes.
module Framing {
  import opened Wrappers

  const MAX_MESSAGE_SIZE: nat := 10 * 1024 * 1024
  const LENGTH_PREFIX_SIZE: nat := 4
  const UINT32: nat := 0x1_0000_0000

  // What the receiver accepts.
  predicate Sendable(m: string) {
    1 <= |m| <= MAX_MESSAGE_SIZE
  }

  // ------------------------------------------------------------- length prefix

  // Big endian: the most significant byte first ("Data Transmission Order",
  // Appendix B of RFC 791).
  function Prefix(n: nat): (p: string)
    requires n < UINT32
    ensures |p| == LENGTH_PREFIX_SIZE && PrefixValue(p) == n
    ensures forall i | 0 <= i < LENGTH_PREFIX_SIZE :: p[i] as int < 256
    ensures n == 0x1000000 * p[0] as int + 0x10000 * p[1] as int + 0x100 * p[2] as int + p[3] as int
  {
    var high := n / 0x100;
    var higher := high / 0x100;
    var highest := higher / 0x100;
    [highest as char, (higher % 0x100) as char, (high % 0x100) as char, (n % 0x100) as char]
  }

  function PrefixValue(p: string): nat
    requires |p| == LENGTH_PREFIX_SIZE
  {
    0x100 * (0x100 * (0x100 * p[0] as int + p[1] as int) + p[2] as int) + p[3] as int
  }

  // Network byte order: the bytes compare like the lengths, the first one that differs
  // decides, and a length below 256 is three zero bytes and itself.
  lemma NetworkOrder(m: nat, n: nat) returns (i: nat)
    requires m < n < UINT32
    ensures i < LENGTH_PREFIX_SIZE && Prefix(m)[..i] == Prefix(n)[..i] && Prefix(m)[i] < Prefix(n)[i]
    ensures n < 256 ==> Prefix(n) == [0 as char, 0 as char, 0 as char, n as char]
  {
    hide Prefix, PrefixValue;
    var p, q := Prefix(m), Prefix(n);
    i := 0;
    while p[i] == q[i]
      invariant i < LENGTH_PREFIX_SIZE && forall k | 0 <= k < i :: p[k] == q[k]
      decreases LENGTH_PREFIX_SIZE - i
    {
      assert i < 3;
      i := i + 1;
    }
    assert p[..i] == q[..i];
  }

  // The length is cut to 32 bits, as the cast in encodeMessage does.
  function Encoded(m: string): string {
    Prefix(|m| % UINT32) + m
  }

  datatype Received = Received(message: Option<string>, rest: string)

  // One decodeMessage on the bytes the peer has sent before closing: the message,
  // if any, and the bytes not yet consumed.
  function Decoded(input: string): (r: Received)
    ensures r.message.Some? ==> Sendable(r.message.value) && |r.rest| == |input| - LENGTH_PREFIX_SIZE - |r.message.value|
  {
    if |input| < LENGTH_PREFIX_SIZE then Received(None, "") else
    var n := PrefixValue(input[..LENGTH_PREFIX_SIZE]);
    var body := input[LENGTH_PREFIX_SIZE..];
    if n == 0 || n > MAX_MESSAGE_SIZE then Received(None, body)
    else if |body| < n then Received(None, "")
    else Received(Some(body[..n]), body[n..])
  }

  // Exactly the non-empty messages of at most MAX_MESSAGE_SIZE bytes come back, and the
  // bytes after the frame are left alone.
  lemma DecodeEncoded(m: string, rest: string)
    ensures Decoded(Encoded(m) + rest) == Received(Some(m), rest) <==> Sendable(m)
  {
    var input := Encoded(m) + rest;
    var n := |m| % UINT32;
    hide Prefix, PrefixValue;
    assert input[..LENGTH_PREFIX_SIZE] == Prefix(n);
    assert input[LENGTH_PREFIX_SIZE..] == m + rest;
    if Sendable(m) {
      assert n == |m|;
      assert (m + rest)[..n] == m && (m + rest)[n..] == rest;
    }
  }

  // -------------------------------------------------------------- whole streams

  function EncodedAll(ms: seq<string>): string {
    if ms == [] then "" else Encoded(ms[0]) + EncodedAll(ms[1..])
  }

  // The messages successive receives return until the first failure.
  function ReceivedAll(input: string): seq<string>
    decreases |input|
  {
    var r := Decoded(input);
    if r.message.None? then [] else [r.message.value] + ReceivedAll(r.rest)
  }

  // The first four bytes of a frame, followed by anything and cut behind them, say how
  // long its message is.
  lemma FrameLength(m: string, rest: string, cut: nat)
    requires |m| < UINT32 && LENGTH_PREFIX_SIZE <= cut <= |Encoded(m) + rest|
    ensures PrefixValue((Encoded(m) + rest)[..cut][..LENGTH_PREFIX_SIZE]) == |m|
  {
    hide Prefix, PrefixValue, Encoded;
    ShortFrame(m);
    HeadOf(Prefix(|m|), m, rest, cut);
  }

  lemma ShortFrame(m: string)
    requires |m| < UINT32
    ensures Encoded(m) == Prefix(|m|) + m
  {
    hide Prefix, PrefixValue;
  }

  lemma HeadOf(p: string, m: string, rest: string, cut: nat)
    requires |p| <= cut <= |p + m + rest|
    ensures (p + m + rest)[..cut][..|p|] == p
  {
  }

  // Nothing is received from bytes that do not hold a whole acceptable frame.
  lemma NothingReceived(input: string)
    requires |input| < LENGTH_PREFIX_SIZE
          || (var n := PrefixValue(input[..LENGTH_PREFIX_SIZE]); n == 0 || n > MAX_MESSAGE_SIZE || |input| < LENGTH_PREFIX_SIZE + n)
    ensures ReceivedAll(input) == []
  {
    hide PrefixValue;
  }

  // A frame that is cut short is not received.
  lemma PartialFrame(m: string, cut: nat)
    requires Sendable(m) && cut < |Encoded(m)|
    ensures ReceivedAll(Encoded(m)[..cut]) == []
  {
    hide Prefix, PrefixValue, Decoded, ReceivedAll;
    if cut >= LENGTH_PREFIX_SIZE {
      FrameLength(m, "", cut);
      assert Encoded(m) + "" == Encoded(m);
    }
    NothingReceived(Encoded(m)[..cut]);
  }

  lemma WholeFrame(m: string, rest: string)
    requires Sendable(m)
    ensures ReceivedAll(Encoded(m) + rest) == [m] + ReceivedAll(rest)
  {
    hide Decoded, Encoded;
    DecodeEncoded(m, rest);
  }

  lemma EncodedTake(ms: seq<string>, k: nat)
    requires 0 < k <= |ms|
    ensures ms[..k] == [ms[0]] + ms[1..][..k - 1]
    ensures EncodedAll(ms[..k]) == Encoded(ms[0]) + EncodedAll(ms[1..][..k - 1])
  {
    assert ms[..k][1..] == ms[1..][..k - 1];
  }

  // Of a stream cut anywhere, exactly the k messages whose frames lie wholly before the
  // cut are received, in order.
  lemma {:induction false} PrefixSafety(ms: seq<string>, cut: nat, k: nat)
    requires forall m | m in ms :: Sendable(m)
    requires cut <= |EncodedAll(ms)|
    requires k <= |ms| && |EncodedAll(ms[..k])| <= cut
    requires k < |ms| ==> cut < |EncodedAll(ms[..k + 1])|
    ensures ReceivedAll(EncodedAll(ms)[..cut]) == ms[..k]
    decreases ms, 1
  {
    if ms == [] {
      assert EncodedAll(ms)[..cut] == "";
    } else if k == 0 {
      EncodedTake(ms, 1);
      assert EncodedAll(ms[1..][..0]) == "";
      PartialFrame(ms[0], cut);
      assert EncodedAll(ms)[..cut] == Encoded(ms[0])[..cut];
    } else {
      PrefixSafetyStep(ms, cut, k);
    }
  }

  lemma {:induction false} PrefixSafetyStep(ms: seq<string>, cut: nat, k: nat)
    requires forall m | m in ms :: Sendable(m)
    requires cut <= |EncodedAll(ms)|
    requires 0 < k <= |ms| && |EncodedAll(ms[..k])| <= cut
    requires k < |ms| ==> cut < |EncodedAll(ms[..k + 1])|
    ensures ReceivedAll(EncodedAll(ms)[..cut]) == ms[..k]
    decreases ms, 0
  {
    hide Decoded, Encoded, ReceivedAll;
    var m, rest := ms[0], ms[1..];
    EncodedTake(ms, k);
    if k < |ms| { EncodedTake(ms, k + 1); }
    var cutRest := cut - |Encoded(m)|;
    PrefixSafety(rest, cutRest, k - 1);
    WholeFrame(m, EncodedAll(rest)[..cutRest]);
    CutConcat(Encoded(m), EncodedAll(rest), cut);
  }

  // Whatever the messages and wherever the cut, what is received is a first part of what
  // was sent. Only the 32-bit length must not overflow.
  lemma {:induction false} ReceivedIsPrefix(ms: seq<string>, cut: nat)
    requires cut <= |EncodedAll(ms)| && forall m | m in ms :: |m| < UINT32
    ensures ReceivedAll(EncodedAll(ms)[..cut]) <= ms
    decreases ms
  {
    hide Decoded, Encoded, ReceivedAll;
    if ms == [] {
      PartialStream("", cut);
    } else {
      var m, rest := ms[0], ms[1..];
      assert m in ms && forall x | x in rest :: x in ms;
      if !Sendable(m) {
        UnsendableFrame(m, EncodedAll(rest), cut);
      } else if cut < |Encoded(m)| {
        PartialFrame(m, cut);
        assert EncodedAll(ms)[..cut] == Encoded(m)[..cut];
      } else {
        ReceivedIsPrefix(rest, cut - |Encoded(m)|);
        WholeFrame(m, EncodedAll(rest)[..cut - |Encoded(m)|]);
        CutConcat(Encoded(m), EncodedAll(rest), cut);
      }
    }
  }

  lemma PartialStream(bytes: string, cut: nat)
    requires cut <= |bytes| && cut < LENGTH_PREFIX_SIZE
    ensures ReceivedAll(bytes[..cut]) == []
  {
    hide PrefixValue;
  }

  lemma UnsendableFrame(m: string, rest: string, cut: nat)
    requires !Sendable(m) && |m| < UINT32 && cut <= |Encoded(m) + rest|
    ensures ReceivedAll((Encoded(m) + rest)[..cut]) == []
  {
    hide Prefix, PrefixValue, Decoded, ReceivedAll;
    if cut >= LENGTH_PREFIX_SIZE { FrameLength(m, rest, cut); }
    NothingReceived((Encoded(m) + rest)[..cut]);
  }

  lemma CutConcat(a: string, b: string, cut: nat)
    requires |a| <= cut <= |a| + |b|
    ensures (a + b)[..cut] == a + b[..cut - |a|]
  {
  }

  // Two lists of sendable messages with the same bytes are the same list.
  lemma UniquelyDecodable(a: seq<string>, b: seq<string>)
    requires forall m | m in a + b :: Sendable(m)
    requires EncodedAll(a) == EncodedAll(b)
    ensures a == b
  {
    WholeStream(a);
    WholeStream(b);
  }

  lemma WholeStream(ms: seq<string>)
    requires forall m | m in ms :: Sendable(m)
    ensures ReceivedAll(EncodedAll(ms)) == ms
  {
    assert ms[..|ms|] == ms;
    var bytes := EncodedAll(ms);
    PrefixSafety(ms, |bytes|, |ms|);
    assert bytes[..|bytes|] == bytes;
  }

  // One end of a connection. The peer's bytes up to its close are in inbound; the
  // bytes handed to ::send are in outbound.
  class NetworkStream {
    const socketFd: int
    var connected: bool
    var inbound: string
    var outbound: string

    constructor (socket: int, peerBytes: string)
      ensures socketFd == socket && connected == (socket >= 0)
      ensures inbound == peerBytes && outbound == ""
    {
      socketFd := socket;
      connected := socket >= 0;
      inbound := peerBytes;
      outbound := "";
    }

    // accepted: whether ::send took the bytes.
    method Send(message: string, accepted: bool) returns (ok: bool)
      modifies this
      ensures ok == (old(connected) && accepted) && connected == ok
      ensures outbound == if ok then old(outbound) + Encoded(message) else old(outbound)
      ensures inbound == old(inbound)
    {
      if !connected {
        return false;
      }
      var encoded := EncodeMessage(message);
      if !accepted {
        connected := false;
        return false;
      }
      outbound := outbound + encoded;
      return true;
    }

    method Receive() returns (message: Option<string>)
      modifies this
      ensures old(connected) ==> Decoded(old(inbound)) == Received(message, inbound)
      ensures !old(connected) ==> message == None && inbound == old(inbound)
      ensures message.Some? ==> ReceivedAll(old(inbound)) == [message.value] + ReceivedAll(inbound) && |inbound| < |old(inbound)|
      ensures old(connected) && message.None? ==> ReceivedAll(old(inbound)) == []
      ensures connected == message.Some? && outbound == old(outbound)
    {
      if !connected {
        return None;
      }
      message := DecodeMessage();
      if message.None? {
        connected := false;
      }
    }

    method EncodeMessage(message: string) returns (encoded: string)
      ensures encoded == Encoded(message)
      ensures |encoded| == 4 + |message| && encoded[4..] == message
      ensures |message| < UINT32 ==>
                |message| == 0x1000000 * encoded[0] as int + 0x10000 * encoded[1] as int + 0x100 * encoded[2] as int + encoded[3] as int
    {
      var length := |message| % UINT32;
      encoded := Prefix(length);
      encoded := encoded + message;
    }

    method DecodeMessage() returns (message: Option<string>)
      modifies this`inbound
      ensures Decoded(old(inbound)) == Received(message, inbound)
    {
      if |inbound| < LENGTH_PREFIX_SIZE {
        inbound := "";
        return None;
      }
      var length := PrefixValue(inbound[..LENGTH_PREFIX_SIZE]);
      inbound := inbound[LENGTH_PREFIX_SIZE..];
      if length == 0 || length > MAX_MESSAGE_SIZE {
        return None;
      }
      if |inbound| < length {
        inbound := "";
        return None;
      }
      message := Some(inbound[..length]);
      inbound := inbound[length..];
    }

    // The receive loops of server and client: take messages until the stream fails,
    // after which it stays failed.
    method ReceiveUntilClosed() returns (messages: seq<string>)
      requires connected
      modifies this
      ensures messages == ReceivedAll(old(inbound))
      ensures !connected && outbound == old(outbound)
    {
      messages := [];
      while connected
        invariant outbound == old(outbound)
        invariant connected ==> messages + ReceivedAll(inbound) == ReceivedAll(old(inbound))
        invariant !connected ==> messages == ReceivedAll(old(inbound))
        decreases if connected then |inbound| + 1 else 0
      {
        var message := Receive();
        if message.None? {
          break;
        }
        messages := messages + [message.value];
      }
    }
  }
}
