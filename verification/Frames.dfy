/** The frame reassembly of TLSRelay._recv_handler in dns_tls_protocols.py (section 4.2.2 of RFC 1035). */
module Frames {
  import opened Wire

  const KEEPALIVE: U16 := 69
  const SHORTEST: nat := 12

  /** The frames of a byte stream, the bytes waiting for more, and whether no length below 12 was met. */
  datatype Framed = Framed(frames: seq<Octets>, rest: Octets, ok: bool)

  function Deframe(b: Octets): (f: Framed)
    decreases |b|
  {
    if |b| < 2 then Framed([], b, true)
    else
      var n: nat := Unpack16(b, 0);
      if n < SHORTEST then Framed([], [], false)
      else if |b| < 2 + n then Framed([], b, true)
      else
        var f := Deframe(b[2 + n..]);
        f.(frames := [b[2..2 + n]] + f.frames)
  }

  /** The frames handed to the responder: all but answers to keepalive queries. */
  function Delivered(frames: seq<Octets>): (d: seq<Octets>) {
    if frames == [] then []
    else if IsKeepalive(frames[0]) then Delivered(frames[1..])
    else [frames[0]] + Delivered(frames[1..])
  }

  predicate IsKeepalive(frame: Octets) { |frame| >= 2 && Unpack16(frame, 0) == KEEPALIVE }

  lemma {:induction false} DeliveredConcat(a: seq<Octets>, b: seq<Octets>)
    ensures Delivered(a + b) == Delivered(a) + Delivered(b)
  {
    hide *;
    NothingDelivered();
    if a == [] {
      assert a + b == b;
    } else {
      DeliveredConcat(a[1..], b);
      FirstOfConcat(a, b);
      FirstDelivered(a);
      FirstDelivered(a + b);
      Associative([a[0]], Delivered(a[1..]), Delivered(b));
    }
  }

  lemma NothingDelivered()
    ensures Delivered([]) == []
  {
  }

  lemma FirstDelivered(frames: seq<Octets>)
    requires frames != []
    ensures Delivered(frames) == if IsKeepalive(frames[0]) then Delivered(frames[1..])
                                 else [frames[0]] + Delivered(frames[1..])
  {
    hide IsKeepalive;
  }

  datatype State = State(buffer: Octets, delivered: seq<Octets>, open: bool)

  /** What one chunk does. An empty chunk is the end of the stream, and a closed connection yields no more. */
  function Receive(s: State, chunk: Octets): State {
    if !s.open || chunk == [] then s.(open := false)
    else
      var f := Deframe(s.buffer + chunk);
      State(f.rest, s.delivered + Delivered(f.frames), f.ok)
  }

  lemma ReceiveCases(s: State, chunk: Octets)
    ensures !s.open || chunk == [] ==> Receive(s, chunk) == State(s.buffer, s.delivered, false)
    ensures s.open && chunk != [] ==>
      var f := Deframe(s.buffer + chunk); Receive(s, chunk) == State(f.rest, s.delivered + Delivered(f.frames), f.ok)
  {
    hide Deframe, Delivered;
  }

  function ReceiveAll(s: State, chunks: seq<Octets>): State
    decreases |chunks|
  {
    if chunks == [] then s else ReceiveAll(Receive(s, chunks[0]), chunks[1..])
  }

  class RecvHandler {
    var recvBuffer: Octets
    var responderQueue: seq<Octets>
    var open: bool

    ghost function Abs(): State
      reads this
    {
      State(recvBuffer, responderQueue, open)
    }

    constructor ()
      ensures Abs() == State([], [], true)
    {
      recvBuffer, responderQueue, open := [], [], true;
    }

    method OnChunk(chunk: Octets)
      modifies this
      ensures Abs() == Receive(old(Abs()), chunk)
    {
      hide Receive, Deframe, After, Delivered, IsKeepalive, Unpack16;
      ReceiveCases(Abs(), chunk);
      if !open || chunk == [] {
        open := false;
        return;
      }
      recvBuffer := recvBuffer + chunk;
      ghost var all := Deframe(recvBuffer);
      ghost var frames: seq<Octets> := [];
      NoFrames(all);
      while |recvBuffer| >= 2
        invariant open
        invariant all == After(frames, Deframe(recvBuffer))
        invariant responderQueue == old(responderQueue) + Delivered(frames)
        decreases |recvBuffer|
      {
        var dataLen: nat := Unpack16(recvBuffer, 0);
        var totalLen := 2 + dataLen;
        DeframeStep(recvBuffer, frames);
        if dataLen < SHORTEST {
          open := false;
          recvBuffer := [];
          return;
        }
        if |recvBuffer| < totalLen {
          return;
        }
        var frame := recvBuffer[2..totalLen];
        recvBuffer := recvBuffer[totalLen..];
        if !IsKeepalive(frame) {
          responderQueue := responderQueue + [frame];
        }
        DeliveredPush(frames, frame);
        frames := frames + [frame];
      }
      NoMoreFrames(recvBuffer, frames);
    }
  }

  /** `f` behind the frames already cut off. */
  ghost function After(frames: seq<Octets>, f: Framed): Framed { f.(frames := frames + f.frames) }

  lemma NoFrames(f: Framed)
    ensures After([], f) == f && Delivered([]) == []
  {
    assert [] + f.frames == f.frames;
  }

  lemma NoMoreFrames(b: Octets, frames: seq<Octets>)
    requires |b| < 2
    ensures After(frames, Deframe(b)) == Framed(frames, b, true)
  {
    assert frames + [] == frames;
  }

  lemma NothingAfter(frames: seq<Octets>, rest: Octets, ok: bool)
    ensures After(frames, Framed([], rest, ok)) == Framed(frames, rest, ok)
  {
    assert frames + [] == frames;
  }

  lemma AfterTwice(a: seq<Octets>, b: seq<Octets>, f: Framed)
    ensures After(a, After(b, f)) == After(a + b, f)
  {
    assert a + (b + f.frames) == a + b + f.frames;
  }

  lemma DeframeOnce(b: Octets)
    requires |b| >= 2
    ensures var n: nat := Unpack16(b, 0);
      Deframe(b) ==
        if n < SHORTEST then Framed([], [], false)
        else if |b| < 2 + n then Framed([], b, true)
        else After([b[2..2 + n]], Deframe(b[2 + n..]))
  {
    hide Unpack16;
  }

  lemma DeframeStep(b: Octets, frames: seq<Octets>)
    requires |b| >= 2
    ensures var n: nat := Unpack16(b, 0);
      After(frames, Deframe(b)) ==
        if n < SHORTEST then Framed(frames, [], false)
        else if |b| < 2 + n then Framed(frames, b, true)
        else After(frames + [b[2..2 + n]], Deframe(b[2 + n..]))
  {
    hide *;
    var n: nat := Unpack16(b, 0);
    DeframeOnce(b);
    NothingAfter(frames, [], false);
    NothingAfter(frames, b, true);
    if n >= SHORTEST && 2 + n <= |b| { AfterTwice(frames, [b[2..2 + n]], Deframe(b[2 + n..])); }
  }

  lemma DeliveredPush(frames: seq<Octets>, frame: Octets)
    ensures Delivered(frames + [frame]) == if IsKeepalive(frame) then Delivered(frames) else Delivered(frames) + [frame]
  {
    DeliveredConcat(frames, [frame]);
    assert Delivered([frame]) == if IsKeepalive(frame) then [] else [frame];
  }

  // ---------------------------------------------------------------------------
  // Independence of chunking.

  lemma {:induction false} DeframeConcat(a: Octets, b: Octets)
    ensures var f := Deframe(a);
      Deframe(a + b) == if f.ok then After(f.frames, Deframe(f.rest + b)) else f
    decreases |a|
  {
    hide *;
    if |a| < 2 {
      ShortStream(a);
      NoFrames(Deframe(a + b));
    } else {
      var n: nat := Unpack16(a, 0);
      DeframeOnce(a);
      DeframeOnce(a + b);
      SamePrefix(a, b);
      if n < SHORTEST {
      } else if |a| < 2 + n {
        NoFrames(Deframe(a + b));
      } else {
        var first, later := [a[2..2 + n]], Deframe(a[2 + n..]);
        DeframeConcat(a[2 + n..], b);
        assert (a + b)[2 + n..] == a[2 + n..] + b && (a + b)[2..2 + n] == a[2..2 + n];
        AfterKeeps(first, later);
        AfterTwice(first, later.frames, Deframe(later.rest + b));
      }
    }
  }

  lemma ShortStream(a: Octets)
    requires |a| < 2
    ensures Deframe(a) == Framed([], a, true)
  {
  }

  lemma SamePrefix(a: Octets, b: Octets)
    requires |a| >= 2
    ensures Unpack16(a + b, 0) == Unpack16(a, 0)
  {
  }

  lemma AfterKeeps(frames: seq<Octets>, f: Framed)
    ensures After(frames, f) == Framed(frames + f.frames, f.rest, f.ok)
  {
  }

  /** The bytes received before the end of the stream. */
  function Bytes(chunks: seq<Octets>): Octets {
    if chunks == [] || chunks[0] == [] then [] else chunks[0] + Bytes(chunks[1..])
  }

  lemma {:induction false} ClosedStaysClosed(s: State, chunks: seq<Octets>)
    requires !s.open
    ensures ReceiveAll(s, chunks) == s
  {
    if chunks != [] { ClosedStaysClosed(s, chunks[1..]); }
  }

  /** What is delivered depends on the bytes of the stream only, not on how they were split into chunks. */
  lemma {:induction false} ChunkingIrrelevant(s: State, chunks: seq<Octets>)
    requires s.open && Deframe(s.buffer) == Framed([], s.buffer, true)
    ensures var f := Deframe(s.buffer + Bytes(chunks));
      ReceiveAll(s, chunks).delivered == s.delivered + Delivered(f.frames)
    decreases |chunks|
  {
    hide *;
    NothingDelivered();
    BytesCases(chunks);
    if chunks == [] || chunks[0] == [] {
      assert s.buffer + [] == s.buffer;
      NothingReceived(s);
      if chunks != [] {
        FirstReceived(s, chunks);
        ReceiveCases(s, chunks[0]);
        ClosedStaysClosed(Receive(s, chunks[0]), chunks[1..]);
      }
    } else {
      var rest := Bytes(chunks[1..]);
      var f := Deframe(s.buffer + chunks[0]);
      var next := Receive(s, chunks[0]);
      FirstReceived(s, chunks);
      ReceiveCases(s, chunks[0]);
      DeframeConcat(s.buffer + chunks[0], rest);
      Associative(s.buffer, chunks[0], rest);
      if f.ok {
        RestIsUnframed(s.buffer + chunks[0]);
        ChunkingIrrelevant(next, chunks[1..]);
        var later := Deframe(f.rest + rest);
        AfterKeeps(f.frames, later);
        DeliveredConcat(f.frames, later.frames);
        Associative(s.delivered, Delivered(f.frames), Delivered(later.frames));
      } else {
        ClosedStaysClosed(next, chunks[1..]);
      }
    }
  }

  lemma NothingReceived(s: State)
    ensures ReceiveAll(s, []) == s
    ensures s.delivered + [] == s.delivered
  {
  }

  lemma FirstReceived(s: State, chunks: seq<Octets>)
    requires chunks != []
    ensures ReceiveAll(s, chunks) == ReceiveAll(Receive(s, chunks[0]), chunks[1..])
  {
    hide Receive;
  }

  lemma BytesCases(chunks: seq<Octets>)
    ensures Bytes(chunks) == if chunks == [] || chunks[0] == [] then [] else chunks[0] + Bytes(chunks[1..])
  {
  }

  /** The connection closes at the end of the stream and at the first length below 12, not otherwise. */
  lemma {:induction false} OpenUntilInvalid(s: State, chunks: seq<Octets>)
    requires s.open && Deframe(s.buffer) == Framed([], s.buffer, true)
    ensures ReceiveAll(s, chunks).open <==> [] !in chunks && Deframe(s.buffer + Bytes(chunks)).ok
    decreases |chunks|
  {
    hide *;
    BytesCases(chunks);
    NothingReceived(s);
    assert s.buffer + [] == s.buffer;
    if chunks != [] {
      assert chunks == [chunks[0]] + chunks[1..];
      FirstReceived(s, chunks);
      ReceiveCases(s, chunks[0]);
      var next := Receive(s, chunks[0]);
      if chunks[0] == [] {
        ClosedStaysClosed(next, chunks[1..]);
      } else {
        var rest := Bytes(chunks[1..]);
        var f := Deframe(s.buffer + chunks[0]);
        DeframeConcat(s.buffer + chunks[0], rest);
        Associative(s.buffer, chunks[0], rest);
        if f.ok {
          RestIsUnframed(s.buffer + chunks[0]);
          OpenUntilInvalid(next, chunks[1..]);
          AfterKeeps(f.frames, Deframe(f.rest + rest));
        } else {
          ClosedStaysClosed(next, chunks[1..]);
        }
      }
    }
  }

  lemma {:induction false} RestIsUnframed(b: Octets)
    requires Deframe(b).ok
    ensures var r := Deframe(b).rest; Deframe(r) == Framed([], r, true)
    decreases |b|
  {
    if |b| >= 2 {
      var n: nat := Unpack16(b, 0);
      if n >= SHORTEST && 2 + n <= |b| { RestIsUnframed(b[2 + n..]); }
    }
  }

  // ---------------------------------------------------------------------------
  // Length-prefixed messages.

  type Message = m: Octets | 12 <= |m| < 0x1_0000 witness seq(12, _ => 0)

  function Prefixed(ms: seq<Message>): Octets {
    if ms == [] then [] else Pack16(|ms[0]|) + ms[0] + Prefixed(ms[1..])
  }

  lemma {:induction false} DeframePrefixed(ms: seq<Message>, tail: Octets)
    ensures Deframe(Prefixed(ms) + tail) == After(ms, Deframe(tail))
  {
    hide Deframe, After;
    var f := Deframe(tail);
    if ms == [] {
      assert Prefixed(ms) + tail == tail;
      NoFrames(f);
    } else {
      DeframePrefixed(ms[1..], tail);
      assert Prefixed(ms) + tail == Pack16(|ms[0]|) + ms[0] + (Prefixed(ms[1..]) + tail);
      FirstMessage(ms[0], Prefixed(ms[1..]) + tail, Prefixed(ms) + tail);
      AfterTwice([ms[0]], ms[1..], f);
      assert [ms[0]] + ms[1..] == ms;
    }
  }

  lemma FirstMessage(m: Message, rest: Octets, b: Octets)
    requires b == Pack16(|m|) + m + rest
    ensures Deframe(b) == After([m], Deframe(rest))
  {
    var n := |m|;
    assert b[0..2] == Pack16(n) && b[2..2 + n] == m && b[2 + n..] == rest;
    assert Unpack16(b, 0) == n;
  }

  /** `delivered` are the messages at the places `picked`, in order: all but those whose ID is 69. */
  ghost predicate Picks(ms: seq<Message>, delivered: seq<Octets>, picked: seq<nat>) {
    && |picked| == |delivered|
    && (forall i :: 0 <= i < |picked| ==> picked[i] < |ms| && delivered[i] == ms[picked[i]])
    && (forall i, j :: 0 <= i < j < |picked| ==> picked[i] < picked[j])
    && (forall j :: 0 <= j < |ms| ==> (j in picked <==> !(ms[j][0] == 0 && ms[j][1] == 69)))
  }

  lemma {:induction false} DeliveredPicks(ms: seq<Message>) returns (picked: seq<nat>)
    ensures Picks(ms, Delivered(ms), picked)
    decreases |ms|
  {
    hide *;
    picked := [];
    if ms == [] {
      NoPicks();
    } else {
      var n := |ms| - 1;
      picked := DeliveredPicks(ms[..n]);
      var frames: seq<Octets> := ms[..n];
      assert ms == ms[..n] + [ms[n]] && frames + [ms[n]] == ms;
      DeliveredPush(frames, ms[n]);
      KeepaliveIs(ms[n]);
      PickOne(ms[..n], ms[n], Delivered(frames), picked);
      if !IsKeepalive(ms[n]) { picked := picked + [n]; }
    }
  }

  lemma NoPicks()
    ensures Picks([], Delivered([]), [])
  {
  }

  lemma KeepaliveIs(m: Message)
    ensures IsKeepalive(m) <==> m[0] == 0 && m[1] == 69
  {
  }

  lemma PickOne(ms: seq<Message>, m: Message, delivered: seq<Octets>, picked: seq<nat>)
    requires Picks(ms, delivered, picked)
    ensures m[0] == 0 && m[1] == 69 ==> Picks(ms + [m], delivered, picked)
    ensures !(m[0] == 0 && m[1] == 69) ==> Picks(ms + [m], delivered + [m], picked + [|ms|])
  {
    assert |ms| !in picked;
  }

  /** The bytes behind the last whole message: too few for one, or a length below 12. */
  predicate EndsDelivery(tail: Octets) {
    |tail| < 2 || Unpack16(tail, 0) < 12 || |tail| < 2 + Unpack16(tail, 0)
  }

  /** Every byte stream is some length-prefixed messages and such a tail. */
  lemma {:induction false} EveryStreamSplits(b: Octets) returns (ms: seq<Message>, tail: Octets)
    ensures b == Prefixed(ms) + tail && EndsDelivery(tail)
    decreases |b|
  {
    ms, tail := [], b;
    if !EndsDelivery(b) {
      var n: nat := Unpack16(b, 0);
      ms, tail := EveryStreamSplits(b[2 + n..]);
      PackUnpack16(b, 0);
      hide Pack16, Unpack16, EndsDelivery, Prefixed;
      var m: Message := b[2..2 + n];
      Rejoin(b, m, n, ms, tail);
      ms := [m] + ms;
    } else {
      assert Prefixed([]) + b == b;
    }
  }

  lemma Rejoin(b: Octets, m: Message, n: U16, ms: seq<Message>, tail: Octets)
    requires 2 + n <= |b| && m == b[2..2 + n] && b[0..2] == Pack16(n) && b[2 + n..] == Prefixed(ms) + tail
    ensures b == Prefixed([m] + ms) + tail
  {
    assert ([m] + ms)[1..] == ms;
    hide Pack16;
    assert b == b[0..2] + b[2..2 + n] + b[2 + n..];
  }

  /**
   * However messages of 12 to 65535 bytes arrive in chunks, exactly the ones
   * whose first two bytes are not the keepalive ID 69 are delivered, in order;
   * a tail that is too short for a message, or whose length field is below
   * 12, adds nothing, whatever follows it. Every stream is of that form. The
   * connection stays open as long as neither such a length nor an empty chunk,
   * which is the end of the stream, was received.
   */
  lemma MessagesDelivered(ms: seq<Message>, tail: Octets, chunks: seq<Octets>) returns (picked: seq<nat>)
    requires Bytes(chunks) == Prefixed(ms) + tail && EndsDelivery(tail)
    ensures ReceiveAll(State([], [], true), chunks).delivered == Delivered(ms)
    ensures Picks(ms, ReceiveAll(State([], [], true), chunks).delivered, picked)
    ensures ReceiveAll(State([], [], true), chunks).open <==>
      [] !in chunks && !(|tail| >= 2 && Unpack16(tail, 0) < 12)
  {
    picked := DeliveredPicks(ms);
    OpenUntilInvalid(State([], [], true), chunks);
    DeframePrefixed(ms, tail);
    TailIsRest(tail);
    hide Delivered, Picks, Prefixed;
    assert ms + [] == ms;
    assert [] + Bytes(chunks) == Bytes(chunks);
    ChunkingIrrelevant(State([], [], true), chunks);
  }

  lemma TailIsRest(tail: Octets)
    requires EndsDelivery(tail)
    ensures Deframe(tail).frames == [] && (Deframe(tail).ok <==> !(|tail| >= 2 && Unpack16(tail, 0) < 12))
  {
  }
}
