/** `LavalinkWebSocket` (LavalinkWebSocket.cs): the host address, the `Connected`
    flag, sending, the reassembly of one message from the frames the node sends
    (message fragmentation as in section 5.4 of RFC 6455), and the session that
    receives messages until a receive throws. A `ClientWebSocket` receive is
    modelled by the next frame of an input sequence, the handshake by whether the
    node accepts it, and a dropped connection by the end of the frames. Each frame's
    bytes are copied through an 8192-byte temporary buffer into a 131072-byte
    message buffer. */
module Sockets {
  import opened Base
  import Decimal
  import opened Messages

  const TemporarySize: nat := 8192
  const BufferSize: nat := 8192 * 16

  /** A receive result: a data frame with the bytes it wrote into the temporary
      buffer (its `Count` is their number), or a close frame with its status. */
  datatype Frame =
    | Data(payload: seq<byte>, endOfMessage: bool)
    | Close(status: Option<int>, description: string)

  /** A receive never writes more than the segment it is given. */
  predicate ValidFrames(frames: seq<Frame>)
  {
    forall i :: 0 <= i < |frames| && frames[i].Data? ==> |frames[i].payload| <= TemporarySize
  }

  /** How a call of `ReceiveAsync` ends, and how many frames it took: with the
      message buffer (which `Encoding.UTF8.GetString` then decodes whole), with the
      exception `CopyTo` raises when the temporary buffer does not fit, with the
      exception the next receive raises once a close frame has closed the socket,
      or waiting for a frame that never comes. */
  datatype Reassembly =
    | Message(buffer: seq<byte>, consumed: nat)
    | Overflow(consumed: nat)
    | Closed(status: Option<int>, description: string, consumed: nat)
    | Incomplete

  /** The close frame `OnClosed` is raised for during a call, if any. */
  function Closing(r: Reassembly): seq<Frame>
  {
    if r.Closed? then [Close(r.status, r.description)] else []
  }

  /** The temporary buffer after a receive: fresh zeros with the payload at its start. */
  function Filled(payload: seq<byte>): (t: seq<byte>)
    requires |payload| <= TemporarySize
    ensures |t| == TemporarySize
    ensures forall k :: 0 <= k < TemporarySize ==> t[k] == if k < |payload| then payload[k] else 0
  {
    payload + Zeros(TemporarySize - |payload|)
  }

  /** `temporaryBuffer.CopyTo(buffer, offset)`: all of it, whatever the count. */
  function CopyAt(buffer: seq<byte>, offset: nat, temporary: seq<byte>): (r: seq<byte>)
    requires offset + |temporary| <= |buffer|
    ensures |r| == |buffer|
    ensures forall k :: 0 <= k < |r| ==>
      r[k] == if offset <= k < offset + |temporary| then temporary[k - offset] else buffer[k]
  {
    buffer[..offset] + temporary + buffer[offset + |temporary|..]
  }

  /** The loop of `ReceiveAsync` from frame i on, with the buffer and offset so far.
      After a close frame the loop goes round again, and that receive on the
      closed socket throws. */
  function Receive(frames: seq<Frame>, buffer: seq<byte>, offset: nat, i: nat): (r: Reassembly)
    requires ValidFrames(frames) && |buffer| == BufferSize && i <= |frames|
    ensures !r.Incomplete? ==> i < r.consumed <= |frames|
    ensures r.Message? ==> |r.buffer| == BufferSize
    decreases |frames| - i
  {
    if i == |frames| then Incomplete
    else match frames[i]
      case Close(status, description) => Closed(status, description, i + 1)
      case Data(payload, endOfMessage) =>
        if offset + TemporarySize > BufferSize then Overflow(i + 1)
        else
          var copied := CopyAt(buffer, offset, Filled(payload));
          if endOfMessage then Message(copied, i + 1)
          else Receive(frames, copied, offset + |payload|, i + 1)
  }

  /** One frame of `Receive`, unfolded. */
  lemma ReceiveStep(frames: seq<Frame>, buffer: seq<byte>, offset: nat, i: nat)
    requires ValidFrames(frames) && |buffer| == BufferSize && i < |frames|
    ensures frames[i].Close? ==>
      Receive(frames, buffer, offset, i) == Closed(frames[i].status, frames[i].description, i + 1)
    ensures frames[i].Data? && offset + TemporarySize > BufferSize ==> Receive(frames, buffer, offset, i) == Overflow(i + 1)
    ensures frames[i].Data? && offset + TemporarySize <= BufferSize ==>
      var copied := CopyAt(buffer, offset, Filled(frames[i].payload));
      Receive(frames, buffer, offset, i)
        == if frames[i].endOfMessage then Message(copied, i + 1)
           else Receive(frames, copied, offset + |frames[i].payload|, i + 1)
  {
  }

  /** A whole call: a fresh buffer at offset 0. */
  function ReceiveMessage(frames: seq<Frame>): Reassembly
    requires ValidFrames(frames)
  {
    Receive(frames, Zeros(BufferSize), 0, 0)
  }

  /** The payloads of the data frames, in order. */
  function Joined(frames: seq<Frame>): seq<byte>
  {
    if frames == [] then []
    else Joined(frames[..|frames| - 1])
         + (match frames[|frames| - 1] case Data(p, _) => p case Close(_, _) => [])
  }

  /** Some data frame among these ends a message. */
  predicate EndsMessage(frames: seq<Frame>)
  {
    exists k :: 0 <= k < |frames| && frames[k].Data? && frames[k].endOfMessage
  }

  /** A message buffer holding these bytes followed by zeros. */
  function Buffered(joined: seq<byte>): (b: seq<byte>)
    requires |joined| <= BufferSize
    ensures |b| == BufferSize
  {
    joined + Zeros(BufferSize - |joined|)
  }

  /** What the outcome of a reassembly says about the frames: it took them up to
      the first close frame, the first data frame that ends a message, or the
      first data frame whose copy would start beyond 8192 * 15, which raises;
      a close frame reports its status; a message holds every payload in order
      followed by zeros; data frames that end no message leave it waiting. */
  predicate Reassembled(frames: seq<Frame>, r: Reassembly)
  {
    && (r.Incomplete? ==>
          && (forall k :: 0 <= k < |frames| ==> frames[k].Data?)
          && !EndsMessage(frames) && |Joined(frames)| <= BufferSize)
    && (!r.Incomplete? ==>
          && 0 < r.consumed <= |frames|
          && (forall k :: 0 <= k < r.consumed - 1 ==> frames[k].Data?)
          && !EndsMessage(frames[..r.consumed - 1])
          && (r.Closed? <==> frames[r.consumed - 1].Close?)
          && (r.Closed? ==> frames[r.consumed - 1] == Close(r.status, r.description))
          && (frames[r.consumed - 1].Data? ==>
                (r.Overflow? <==> |Joined(frames[..r.consumed - 1])| > BufferSize - TemporarySize))
          && (r.Message? ==>
                && frames[r.consumed - 1].endOfMessage
                && |Joined(frames[..r.consumed])| <= BufferSize
                && r.buffer == Buffered(Joined(frames[..r.consumed]))))
  }

  /** `ReceiveAsync` does what `Reassembled` says, on every sequence of frames. */
  lemma ReceiveMessageMeaning(frames: seq<Frame>)
    requires ValidFrames(frames)
    ensures Reassembled(frames, ReceiveMessage(frames))
  {
    assert frames[..0] == [];
    assert Buffered([]) == Zeros(BufferSize);
    ReceiveFrom(frames, 0);
  }

  /** The loop from frame i on, when the frames before it were data frames that
      fitted and held no end. */
  lemma {:induction false} ReceiveFrom(frames: seq<Frame>, i: nat)
    requires ValidFrames(frames) && i <= |frames|
    requires forall k :: 0 <= k < i ==> frames[k].Data?
    requires |Joined(frames[..i])| <= BufferSize && !EndsMessage(frames[..i])
    ensures Reassembled(frames, Receive(frames, Buffered(Joined(frames[..i])), |Joined(frames[..i])|, i))
    decreases |frames| - i
  {
    var joined := Joined(frames[..i]);
    if i == |frames| {
      assert frames[..i] == frames;
    } else {
      FrameStep(frames, i);
      match frames[i]
      case Close(_, _) =>
      case Data(payload, endOfMessage) =>
        if |joined| + TemporarySize <= BufferSize {
          CopyJoins(joined, payload);
          if !endOfMessage {
            ReceiveFrom(frames, i + 1);
          }
        }
    }
  }

  /** One more frame: its payload joins the others, and it ends a message
      exactly when it is a data frame marked so. */
  lemma FrameStep(frames: seq<Frame>, i: nat)
    requires i < |frames|
    ensures Joined(frames[..i + 1])
      == Joined(frames[..i]) + (match frames[i] case Data(p, _) => p case Close(_, _) => [])
    ensures EndsMessage(frames[..i + 1]) <==> EndsMessage(frames[..i]) || (frames[i].Data? && frames[i].endOfMessage)
  {
    assert frames[..i + 1][..i] == frames[..i];
    assert frames[..i + 1] == frames[..i] + [frames[i]];
    NoEndExtends(frames[..i], frames[i]);
  }

  /** Copying a filled temporary buffer at the end of the joined bytes joins its payload. */
  lemma CopyJoins(joined: seq<byte>, payload: seq<byte>)
    requires |payload| <= TemporarySize && |joined| + TemporarySize <= BufferSize
    ensures CopyAt(Buffered(joined), |joined|, Filled(payload)) == Buffered(joined + payload)
  {
    var copied := CopyAt(Buffered(joined), |joined|, Filled(payload));
    assert forall k :: 0 <= k < BufferSize ==> copied[k] == Buffered(joined + payload)[k];
  }

  /** Adding a frame adds an end of message exactly when it is one. */
  lemma NoEndExtends(frames: seq<Frame>, f: Frame)
    ensures EndsMessage(frames + [f]) <==> EndsMessage(frames) || (f.Data? && f.endOfMessage)
  {
    var all := frames + [f];
    if EndsMessage(frames) {
      var k :| 0 <= k < |frames| && frames[k].Data? && frames[k].endOfMessage;
      assert all[k] == frames[k];
    }
    if f.Data? && f.endOfMessage {
      assert all[|frames|] == f;
    }
  }

  /** `ws://{WebSocketHost}:{WebSocketPort}`. */
  function HostUri(host: string, port: ushort): (uri: string)
  {
    "ws://" + host + ":" + Decimal.DecimalText(port)
  }

  /** The address begins with the scheme and host, and for one host tells the
      ports apart. */
  lemma HostUriParts(host: string, port: ushort, other: ushort)
    ensures HostUri(host, port)[..5] == "ws://"
    ensures HostUri(host, port)[5..5 + |host|] == host
    ensures HostUri(host, port) == HostUri(host, other) ==> port == other
  {
    var prefix := "ws://" + host + ":";
    assert HostUri(host, port) == prefix + Decimal.DecimalText(port);
    if HostUri(host, port) == HostUri(host, other) {
      assert Decimal.DecimalText(port) == HostUri(host, port)[|prefix|..];
      assert Decimal.DecimalText(other) == HostUri(host, other)[|prefix|..];
      Decimal.DecimalTextInjective(port, other);
    }
  }

  /** One session of `ConnectWebSocketAsync` after the handshake: the messages
      received while the socket is open, in order, and the close frame that ended
      it, if the node sent one. A session whose receive overflows, or whose
      connection drops (its frames run out), ends with no close frame. */
  datatype Session = Session(messages: seq<seq<byte>>, close: Option<Frame>)

  /** The `while (webSocket.State == WebSocketState.Open)` loop: one `ReceiveAsync`
      after another, until one of them throws. */
  function SessionOf(frames: seq<Frame>): (s: Session)
    requires ValidFrames(frames)
    ensures |s.messages| <= |frames|
    ensures forall k :: 0 <= k < |s.messages| ==> |s.messages[k]| == BufferSize
    ensures s.close.Some? ==> s.close.value.Close?
    decreases |frames|
  {
    match ReceiveMessage(frames)
    case Message(buffer, consumed) =>
      assert forall k :: 0 <= k < |frames[consumed..]| ==> frames[consumed..][k] == frames[consumed + k];
      var rest := SessionOf(frames[consumed..]);
      Session([buffer] + rest.messages, rest.close)
    case Closed(status, description, _) => Session([], Some(Close(status, description)))
    case _ => Session([], None)
  }

  /** A session ends on a close frame only when the node sent one, and a session
      whose first frame is a close frame ends on it with no message. */
  lemma {:induction false} SessionClose(frames: seq<Frame>)
    requires ValidFrames(frames)
    ensures SessionOf(frames).close.Some? ==>
      SessionOf(frames).close.value.Close? && SessionOf(frames).close.value in frames
    ensures (forall k :: 0 <= k < |frames| ==> frames[k].Data?) ==> SessionOf(frames).close.None?
    ensures |frames| > 0 && frames[0].Close? ==> SessionOf(frames) == Session([], Some(frames[0]))
    decreases |frames|
  {
    ReceiveMessageMeaning(frames);
    match ReceiveMessage(frames)
    case Message(_, consumed) =>
      var rest := frames[consumed..];
      assert forall k :: 0 <= k < |rest| ==> rest[k] == frames[consumed + k];
      SessionClose(rest);
      if SessionOf(rest).close.Some? {
        var j :| 0 <= j < |rest| && rest[j] == SessionOf(rest).close.value;
        assert frames[consumed + j] == SessionOf(frames).close.value;
      }
    case Closed(_, _, consumed) =>
      assert frames[consumed - 1] == SessionOf(frames).close.value;
    case _ =>
  }

  class LavalinkWebSocket {
    const hostUri: string
    /** `webSocket != null`. */
    var hasSocket: bool
    /** `Connected`. */
    var connected: bool
    /** What was sent through the socket, in order. */
    var sent: seq<ControlMsg>
    /** The close frames `OnClosed` was raised for, in order. */
    var closed: seq<Frame>

    constructor(host: string, port: ushort)
      ensures hostUri == HostUri(host, port)
      ensures !hasSocket && !connected && sent == [] && closed == []
    {
      hostUri := HostUri(host, port);
      hasSocket := false;
      connected := false;
      sent := [];
      closed := [];
    }

    /** `IsConnected()`. */
    predicate IsConnected()
      reads this
    {
      hasSocket && connected
    }

    /** `SendAsync(message)`. */
    method SendAsync(m: ControlMsg)
      requires hasSocket
      modifies this
      ensures sent == old(sent) + [m]
      ensures hasSocket == old(hasSocket) && connected == old(connected) && closed == old(closed)
    {
      sent := sent + [m];
    }

    /** `Connect()`, that is `ConnectWebSocketAsync`: a new socket; a refused
        handshake throws and leaves `Connected` as it was; an accepted one sets it
        and then runs the session on the frames, returning the messages received
        (each of which `OnReceive` is raised for) once a receive throws. */
    method Connect(accepted: bool, frames: seq<Frame>) returns (messages: seq<seq<byte>>)
      requires ValidFrames(frames)
      modifies this
      ensures hasSocket && sent == old(sent)
      ensures !accepted ==> messages == [] && connected == old(connected) && closed == old(closed)
      ensures accepted ==>
        && messages == SessionOf(frames).messages
        && closed == old(closed) + (if SessionOf(frames).close.Some? then [SessionOf(frames).close.value] else [])
        && connected == SessionOf(frames).close.None?
    {
      hasSocket := true;
      messages := [];
      if !accepted {
        return;
      }
      connected := true;
      var rest := frames;
      var open := true;
      while open
        invariant ValidFrames(rest) && hasSocket && sent == old(sent)
        invariant open ==> SessionOf(frames) == Session(messages + SessionOf(rest).messages, SessionOf(rest).close)
        invariant open ==> closed == old(closed) && connected
        invariant !open ==> SessionOf(frames).messages == messages
        invariant !open ==>
          closed == old(closed) + (if SessionOf(frames).close.Some? then [SessionOf(frames).close.value] else [])
        invariant !open ==> connected == SessionOf(frames).close.None?
        decreases open, |rest|
      {
        var r := ReceiveAsync(rest);
        if r.Message? {
          assert forall k :: 0 <= k < |rest[r.consumed..]| ==> rest[r.consumed..][k] == rest[r.consumed + k];
          assert messages + ([r.buffer] + SessionOf(rest[r.consumed..]).messages)
              == (messages + [r.buffer]) + SessionOf(rest[r.consumed..]).messages;
          messages := messages + [r.buffer];
          rest := rest[r.consumed..];
        } else {
          assert messages + [] == messages;
          open := false;
        }
      }
    }

    /** `ReceiveAsync`: reassembles one message from the frames. A close frame
        raises `OnClosed` and clears `Connected`, and the receive after it throws. */
    method ReceiveAsync(frames: seq<Frame>) returns (r: Reassembly)
      requires ValidFrames(frames)
      modifies this
      ensures r == ReceiveMessage(frames)
      ensures closed == old(closed) + Closing(r)
      ensures connected == (old(connected) && !r.Closed?)
      ensures hasSocket == old(hasSocket) && sent == old(sent)
    {
      var temporary := new byte[TemporarySize](_ => 0);
      var buffer := new byte[BufferSize](_ => 0);
      var offset: nat := 0;
      var i := 0;
      ghost var contents := buffer[..];
      var done: Option<Reassembly> := None;
      assert contents == Zeros(BufferSize);
      while i < |frames| && done.None?
        invariant 0 <= i <= |frames| && |contents| == BufferSize
        invariant done.None? ==> ReceiveMessage(frames) == Receive(frames, contents, offset, i)
        invariant done.Some? ==> done.value == ReceiveMessage(frames)
        invariant buffer[..] == contents && temporary[..] == Zeros(TemporarySize)
        invariant closed == old(closed) + (if done.Some? then Closing(done.value) else [])
        invariant connected == (old(connected) && !(done.Some? && done.value.Closed?))
        invariant hasSocket == old(hasSocket) && sent == old(sent)
        invariant temporary != buffer && fresh(temporary) && fresh(buffer)
        invariant buffer.Length == BufferSize && temporary.Length == TemporarySize
        decreases |frames| - i
      {
        done, temporary, offset, contents := ReceiveFrame(frames, i, temporary, buffer, offset, contents);
        i := i + 1;
      }
      r := if done.Some? then done.value else Incomplete;
    }

    /** One pass of the receive loop, on frame `i`: the result when the frame
        ends the call (a close frame, the `end` flag, or the exception of an
        overflow), otherwise the buffer and offset for the next frame. */
    method ReceiveFrame(frames: seq<Frame>, i: nat, temporary: array<byte>, buffer: array<byte>, offset: nat,
                        ghost contents: seq<byte>)
      returns (done: Option<Reassembly>, next: array<byte>, nextOffset: nat, ghost nextContents: seq<byte>)
      requires ValidFrames(frames) && i < |frames| && |contents| == BufferSize
      requires temporary != buffer && buffer.Length == BufferSize && buffer[..] == contents
      requires temporary.Length == TemporarySize && temporary[..] == Zeros(TemporarySize)
      modifies this, temporary, buffer
      ensures closed == old(closed) + (if done.Some? then Closing(done.value) else [])
      ensures connected == (old(connected) && !(done.Some? && done.value.Closed?))
      ensures hasSocket == old(hasSocket) && sent == old(sent)
      ensures done.Some? ==> done.value == Receive(frames, contents, offset, i)
      ensures |nextContents| == BufferSize && buffer[..] == nextContents
      ensures done.None? ==> Receive(frames, contents, offset, i) == Receive(frames, nextContents, nextOffset, i + 1)
      ensures next != buffer && next.Length == TemporarySize && next[..] == Zeros(TemporarySize)
      ensures next == temporary || fresh(next)
    {
      ReceiveStep(frames, contents, offset, i);
      next, nextOffset, nextContents := temporary, offset, contents;
      if frames[i].Close? {
        closed := closed + [frames[i]];
        connected := false;
        return Some(Closed(frames[i].status, frames[i].description, i + 1)), next, nextOffset, nextContents;
      }
      var payload := frames[i].payload;
      var overflow;
      overflow, next := TakeData(temporary, buffer, offset, payload);
      if overflow {
        return Some(Overflow(i + 1)), next, nextOffset, nextContents;
      }
      nextContents := CopyAt(contents, offset, Filled(payload));
      nextOffset := offset + |payload|;
      if frames[i].endOfMessage {
        return Some(Message(buffer[..], i + 1)), next, nextOffset, nextContents;
      }
      done := None;
    }

    /** One data frame: received into the temporary buffer, then, unless the
        message buffer has no room for a whole temporary buffer, copied at the
        offset, with a fresh temporary buffer for the next frame. */
    static method TakeData(temporary: array<byte>, buffer: array<byte>, offset: nat, payload: seq<byte>)
      returns (overflow: bool, next: array<byte>)
      requires temporary != buffer && |payload| <= TemporarySize
      requires temporary.Length == TemporarySize && temporary[..] == Zeros(TemporarySize)
      requires buffer.Length == BufferSize
      modifies temporary, buffer
      ensures overflow == (offset + TemporarySize > BufferSize)
      ensures !overflow ==> buffer[..] == CopyAt(old(buffer[..]), offset, Filled(payload))
      ensures overflow ==> buffer[..] == old(buffer[..])
      ensures fresh(next) && next.Length == TemporarySize && next[..] == Zeros(TemporarySize)
    {
      Fill(temporary, payload);
      overflow := offset + TemporarySize > BufferSize;
      if !overflow {
        CopyTo(temporary, buffer, offset);
      }
      next := new byte[TemporarySize](_ => 0);
      assert next[..] == Zeros(TemporarySize);
    }

    /** The library's receive writing the frame's bytes into the temporary buffer. */
    static method Fill(temporary: array<byte>, payload: seq<byte>)
      requires temporary.Length == TemporarySize && temporary[..] == Zeros(TemporarySize)
      requires |payload| <= TemporarySize
      modifies temporary
      ensures temporary[..] == Filled(payload)
    {
      var j := 0;
      while j < |payload|
        invariant 0 <= j <= |payload|
        invariant forall k :: 0 <= k < TemporarySize ==> temporary[k] == if k < j then payload[k] else 0
      {
        temporary[j] := payload[j];
        j := j + 1;
      }
      assert forall k :: 0 <= k < TemporarySize ==> temporary[k] == Filled(payload)[k];
    }

    /** `Array.CopyTo`: every element of the source, at the given offset. */
    static method CopyTo(source: array<byte>, target: array<byte>, offset: nat)
      requires source != target && offset + source.Length <= target.Length
      modifies target
      ensures target[..] == CopyAt(old(target[..]), offset, source[..])
    {
      var j := 0;
      while j < source.Length
        invariant 0 <= j <= source.Length
        invariant forall k :: 0 <= k < target.Length ==>
          target[k] == if offset <= k < offset + j then source[k - offset] else old(target[k])
      {
        target[offset + j] := source[j];
        j := j + 1;
      }
      assert forall k :: 0 <= k < target.Length ==> target[k] == CopyAt(old(target[..]), offset, source[..])[k];
    }
  }
}
