/** The length-prefixed frames on the sockets: four bytes of length, most significant
    first, and that many bytes of message. */
module SocketMsgFrame {
  import opened Wrappers

  type Byte = n: nat | n < 256

  // htonl of a length cut to 32 bits.
  function Header(length: nat): (h: seq<Byte>)
    ensures |h| == 4
  {
    [length / 0x100_0000 % 256, length / 0x1_0000 % 256, length / 0x100 % 256, length % 256]
  }

  // ntohl.
  function BodyLength(h: seq<Byte>): (n: nat)
    requires |h| == 4
    ensures n < 0x1_0000_0000
  {
    0x100_0000 * (h[0] as nat) + 0x1_0000 * (h[1] as nat) + 0x100 * (h[2] as nat) + (h[3] as nat)
  }

  lemma Quotients(n: nat)
    ensures n / 0x1_0000 == n / 0x100 / 0x100
    ensures n / 0x100_0000 == n / 0x100 / 0x100 / 0x100
  {
  }

  lemma Remainder(n: nat, q: nat, r: nat)
    requires n == 0x1_0000_0000 * q + r && r < 0x1_0000_0000
    ensures n % 0x1_0000_0000 == r
  {
  }

  lemma HeaderRoundTrip(length: nat)
    ensures BodyLength(Header(length)) == length % 0x1_0000_0000
  {
    var q1 := length / 0x100;
    var q2 := q1 / 0x100;
    var q3 := q2 / 0x100;
    Quotients(length);
    Remainder(length, q3 / 0x100,
              0x100_0000 * (q3 % 0x100) + 0x1_0000 * (q2 % 0x100) + 0x100 * (q1 % 0x100) + length % 0x100);
  }

  // The header holds the length, cut to 32 bits, with the weights of its bytes, and is the only
  // four bytes that do.
  lemma HeaderWeights(length: nat, b0: Byte, b1: Byte, b2: Byte, b3: Byte)
    ensures Header(length) == [b0, b1, b2, b3] <==>
              0x100_0000 * (b0 as nat) + 0x1_0000 * (b1 as nat) + 0x100 * (b2 as nat) + (b3 as nat)
              == length % 0x1_0000_0000
  {
    var h := [b0, b1, b2, b3];
    HeaderRoundTrip(length);
    HeaderOfBodyLength(h);
    HeaderOfBodyLength(Header(length));
    assert BodyLength(h) == 0x100_0000 * (b0 as nat) + 0x1_0000 * (b1 as nat) + 0x100 * (b2 as nat) + (b3 as nat);
    hide Header, BodyLength;
  }

  lemma HeaderOfBodyLength(h: seq<Byte>)
    requires |h| == 4
    ensures Header(BodyLength(h)) == h
  {
    var n := BodyLength(h);
    assert n / 0x100 == 0x1_0000 * (h[0] as nat) + 0x100 * (h[1] as nat) + (h[2] as nat);
    assert n / 0x1_0000 == 0x100 * (h[0] as nat) + (h[1] as nat);
    assert n / 0x100_0000 == h[0];
  }

  // What one sendMsgToSocket puts on the wire.
  function Frame(msg: seq<Byte>): seq<Byte>
  {
    if msg == [] then [] else Header(|msg|) + msg
  }

  function Stream(msgs: seq<seq<Byte>>): seq<Byte>
  {
    if msgs == [] then [] else Frame(msgs[0]) + Stream(msgs[1..])
  }

  // One recvMsgFromSocket on the bytes the peer sent before it closed: a message and
  // how many bytes it took, or the end of the stream in the middle of a read.
  datatype Received = Message(body: seq<Byte>, taken: nat) | EndOfStream

  function Receive(wire: seq<Byte>): (r: Received)
    ensures r.Message? ==> 4 <= r.taken <= |wire| && |r.body| == r.taken - 4
  {
    if |wire| < 4 then EndOfStream
    else
      var n := BodyLength(wire[..4]);
      if n == 0 then Message([], 4)
      else if |wire| < 4 + n then EndOfStream
      else Message(wire[4..4 + n], 4 + n)
  }

  // recvMsgFromSocket until the stream ends; None when it ends inside a frame.
  function ReceiveAll(wire: seq<Byte>): Option<seq<seq<Byte>>>
    decreases |wire|
  {
    if wire == [] then Some([])
    else
      match Receive(wire)
      case EndOfStream => None
      case Message(body, taken) =>
        match ReceiveAll(wire[taken..])
        case None => None
        case Some(rest) => Some([body] + rest)
  }

  function NonEmpty(msgs: seq<seq<Byte>>): seq<seq<Byte>>
  {
    if msgs == [] then []
    else if msgs[0] == [] then NonEmpty(msgs[1..])
    else [msgs[0]] + NonEmpty(msgs[1..])
  }

  class Socket {
    var outgoing: seq<Byte>  // written and not yet read by the peer
    var incoming: seq<Byte>  // sent by the peer and not yet read

    method SendMsgToSocket(msg: seq<Byte>)
      modifies this`outgoing
      ensures outgoing == old(outgoing) + Frame(msg)
      ensures msg != [] ==> |outgoing| == |old(outgoing)| + 4 + |msg| && outgoing[|old(outgoing)| + 4..] == msg
    {
      if msg == [] {
        return;
      }
      var msgFrame := new Byte[4 + |msg|];
      var header := Header(|msg|);
      forall i | 0 <= i < 4 {
        msgFrame[i] := header[i];
      }
      forall i | 0 <= i < |msg| {
        msgFrame[4 + i] := msg[i];
      }
      assert msgFrame[..] == header + msg;
      outgoing := outgoing + msgFrame[..];
    }

    method RecvMsgFromSocket() returns (r: Received)
      modifies this`incoming
      ensures r == Receive(old(incoming))
      ensures r.Message? ==> 4 <= r.taken <= |old(incoming)| && r.body == old(incoming)[4..r.taken]
      ensures incoming == if r.Message? then old(incoming)[r.taken..] else []
    {
      if |incoming| < 4 {
        incoming := [];  // a read that meets the end has taken what there was
        return EndOfStream;
      }
      var msgHeaderBE := incoming[..4];
      incoming := incoming[4..];
      var msgBodyLength := BodyLength(msgHeaderBE);
      if msgBodyLength == 0 {
        return Message([], 4);
      }
      if |incoming| < msgBodyLength {
        incoming := [];
        return EndOfStream;
      }
      var msgBody := incoming[..msgBodyLength];
      incoming := incoming[msgBodyLength..];
      return Message(msgBody, 4 + msgBodyLength);
    }
  }

  // A non-empty message comes back from its frame exactly when its length fits in 32 bits.
  lemma FrameRoundTrip(msg: seq<Byte>, rest: seq<Byte>)
    requires msg != []
    ensures Receive(Frame(msg) + rest) == Message(msg, |Frame(msg)|) <==> |msg| < 0x1_0000_0000
  {
    var wire := Frame(msg) + rest;
    assert wire[..4] == Header(|msg|);
    HeaderRoundTrip(|msg|);
    if |msg| < 0x1_0000_0000 {
      assert wire[4..4 + |msg|] == msg;
    }
  }

  lemma {:induction false} StreamRoundTrip(msgs: seq<seq<Byte>>)
    requires forall i :: 0 <= i < |msgs| ==> |msgs[i]| < 0x1_0000_0000
    ensures ReceiveAll(Stream(msgs)) == Some(NonEmpty(msgs))
  {
    if msgs != [] {
      StreamRoundTrip(msgs[1..]);
      if msgs[0] != [] {
        var wire := Stream(msgs);
        FrameRoundTrip(msgs[0], Stream(msgs[1..]));
        assert wire[|Frame(msgs[0])|..] == Stream(msgs[1..]);
      } else {
        assert Stream(msgs) == Stream(msgs[1..]);
      }
    }
  }

  lemma StreamsAreUnambiguous(msgs: seq<seq<Byte>>, msgs': seq<seq<Byte>>)
    requires forall i :: 0 <= i < |msgs| ==> |msgs[i]| < 0x1_0000_0000
    requires forall i :: 0 <= i < |msgs'| ==> |msgs'[i]| < 0x1_0000_0000
    requires Stream(msgs) == Stream(msgs')
    ensures NonEmpty(msgs) == NonEmpty(msgs')
  {
    StreamRoundTrip(msgs);
    StreamRoundTrip(msgs');
  }

  // A message taken off the wire was framed there as this sender frames it, or was empty.
  lemma ReceivedFrame(wire: seq<Byte>)
    requires Receive(wire).Message?
    ensures var r := Receive(wire);
            if r.body == [] then r.taken == 4 else Frame(r.body) == wire[..r.taken]
  {
    var r := Receive(wire);
    if r.body != [] {
      HeaderOfBodyLength(wire[..4]);
      assert wire[..4] + r.body == wire[..r.taken];
    }
  }

  // The other direction: what was received, sent again, gives the bytes received, unless
  // some frame was empty. The sender never writes an empty frame.
  lemma {:induction false} ReceivedStreamIsTheStreamSent(wire: seq<Byte>)
    requires ReceiveAll(wire).Some?
    ensures Stream(ReceiveAll(wire).value) == wire <==> [] !in ReceiveAll(wire).value
    ensures |Stream(ReceiveAll(wire).value)| <= |wire|
    decreases |wire|
  {
    hide Receive, Frame, Header;
    if wire != [] {
      var r := Receive(wire);
      var later := ReceiveAll(wire[r.taken..]).value;
      var all := ReceiveAll(wire).value;
      ReceivedStreamIsTheStreamSent(wire[r.taken..]);
      ReceivedFrame(wire);
      assert all == [r.body] + later && all[1..] == later;
      if r.body == [] {
        EmptyFrame();
        assert |Stream(all)| < |wire|;
      } else {
        assert Stream(all) == wire[..r.taken] + Stream(later);
        assert wire == wire[..r.taken] + wire[r.taken..];
        assert Stream(all)[r.taken..] == Stream(later);
      }
    }
  }

  lemma EmptyFrame()
    ensures Frame([]) == []
  {
  }
}
