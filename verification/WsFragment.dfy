/** Sending a WebSocket message as frames no longer than the transmit buffer (section 5.4 of
    RFC 6455). */
module WsFragment {
  import opened MdnsTypes
  import opened Bytes
  import opened Sequences

  datatype Frame = Frame(opcode: nat, fin: bool, payload: seq<byte>)
  datatype Message = Message(opcode: nat, data: seq<byte>)

  const FIN := 0x80

  // ---- What is sent ----

  // The frames still to send for the rest of a message, the first of them with the given opcode.
  function Frames(opcode: nat, data: seq<byte>, size: nat): seq<Frame>
    requires size > 0
    decreases |data|
  {
    if |data| <= size then [Frame(opcode, true, data)]
    else [Frame(opcode, false, data[..size])] + Frames(0, data[size..], size)
  }

  // What goes out on the wire: an opcode byte with the FIN bit, and the payload.
  datatype Raw = Raw(opcode: nat, payload: seq<byte>)

  function Parsed(r: Raw): Frame
  {
    Frame(r.opcode % FIN, r.opcode >= FIN, r.payload)
  }

  function ParsedAll(rs: seq<Raw>): (fs: seq<Frame>)
    ensures |fs| == |rs|
  {
    if rs == [] then [] else ParsedAll(rs[..|rs| - 1]) + [Parsed(rs[|rs| - 1])]
  }

  lemma ParsedSnoc(rs: seq<Raw>, r: Raw)
    ensures ParsedAll(rs + [r]) == ParsedAll(rs) + [Parsed(r)]
  {
    assert (rs + [r])[..|rs|] == rs;
  }

  /** Sends one message. The transport takes each frame whole, except that the write numbered
      failAt fails; then sending stops. Gives the number of bytes sent, or a failure. */
  method SendWithOpcode(opcode: nat, data: seq<byte>, txBuffer: array<byte>, failAt: Option<nat>)
    returns (sent: seq<Raw>, ret: Option<nat>)
    requires 0 < opcode < FIN && txBuffer.Length > 0
    modifies txBuffer
    ensures var frames := Frames(opcode, data, txBuffer.Length);
      if failAt.Some? && failAt.value < |frames|
      then ret.None? && ParsedAll(sent) == frames[..failAt.value]
      else ret == Some(|data|) && ParsedAll(sent) == frames
  {
    ghost var size := txBuffer.Length;
    ghost var frames := Frames(opcode, data, size);
    var widx := 0;
    var current := opcode;
    sent := [];
    assert data[0..] == data;
    while widx < |data| || current != 0
      invariant 0 <= widx <= |data| && current < FIN && ToSend(sent, current, data[widx..], size, frames)
      invariant failAt.Some? ==> |sent| <= failAt.value
      decreases |data| - widx, current
    {
      var frame := NextRaw(current, data, widx, txBuffer);
      NextSent(sent, current, data[widx..], size, frame, frames);
      if failAt == Some(|sent|) {
        return sent, None;
      }
      sent := sent + [frame];
      current := 0;
      TailOfTail(data, widx, |frame.payload|);
      widx := widx + |frame.payload|;
    }
    assert data[widx..] == [] && ParsedAll(sent) + [] == ParsedAll(sent);
    ret := Some(widx);
  }

  // What is sent and what is left to send make up all the frames.
  ghost predicate ToSend(sent: seq<Raw>, opcode: nat, rest: seq<byte>, size: nat, frames: seq<Frame>)
    requires size > 0
  {
    ParsedAll(sent) + Left(opcode, rest, size) == frames
  }

  // The next frame as it goes out: as much as the buffer holds, FIN on the last.
  method NextRaw(opcode: nat, data: seq<byte>, widx: nat, txBuffer: array<byte>) returns (frame: Raw)
    requires widx <= |data| && txBuffer.Length > 0
    modifies txBuffer
    ensures frame == RawOf(opcode, data[widx..], txBuffer.Length)
  {
    var needWrite := |data| - widx;
    var current := opcode;
    if needWrite > txBuffer.Length {
      needWrite := txBuffer.Length;
    } else {
      current := current + FIN;
    }
    CopyTo(txBuffer, data, widx, needWrite);
    SubSlice(data, widx, widx, widx + needWrite);
    frame := Raw(current, txBuffer[..needWrite]);
  }

  function RawOf(opcode: nat, rest: seq<byte>, size: nat): Raw
  {
    if |rest| <= size then Raw(opcode + FIN, rest[..|rest|]) else Raw(opcode, rest[..size])
  }

  lemma NextSent(sent: seq<Raw>, opcode: nat, rest: seq<byte>, size: nat, frame: Raw, frames: seq<Frame>)
    requires size > 0 && opcode < FIN && (opcode != 0 || rest != []) && frame == RawOf(opcode, rest, size)
    requires ToSend(sent, opcode, rest, size, frames)
    ensures |frame.payload| <= |rest| && ToSend(sent + [frame], 0, rest[|frame.payload|..], size, frames)
    ensures |sent| < |frames| && ParsedAll(sent) == frames[..|sent|]
    ensures rest != [] ==> frame.payload != []
  {
    NextFrame(sent, opcode, rest, size, |frame.payload|);
    SentIsPrefix(ParsedAll(sent), Frames(opcode, rest, size));
  }

  method CopyTo(txBuffer: array<byte>, data: seq<byte>, from: nat, n: nat)
    requires from + n <= |data| && n <= txBuffer.Length
    modifies txBuffer
    ensures txBuffer[..n] == data[from..from + n]
  {
    var i := 0;
    while i < n
      invariant 0 <= i <= n && txBuffer[..i] == data[from..from + i]
    {
      txBuffer[i] := data[from + i];
      i := i + 1;
    }
  }

  lemma ParsedFrame(first: nat, last: bool, payload: seq<byte>)
    requires first < FIN
    ensures Parsed(Raw(if last then first + FIN else first, payload)) == Frame(first, last, payload)
  {
  }

  lemma FramesUnfold(first: nat, rest: seq<byte>, size: nat, n: nat)
    requires size > 0 && n == (if |rest| > size then size else |rest|)
    ensures Frames(first, rest, size)
         == [Frame(first, |rest| <= size, rest[..n])] + Left(0, rest[n..], size)
  {
    assert |rest| <= size ==> rest[..n] == rest;
  }

  // What the loop still has to send.
  function Left(opcode: nat, rest: seq<byte>, size: nat): seq<Frame>
    requires size > 0
  {
    if opcode != 0 || rest != [] then Frames(opcode, rest, size) else []
  }

  lemma NextFrame(sent: seq<Raw>, first: nat, rest: seq<byte>, size: nat, n: nat)
    requires size > 0 && first < FIN && n == (if |rest| > size then size else |rest|)
    ensures var frame := Raw(if |rest| <= size then first + FIN else first, rest[..n]);
      ParsedAll(sent + [frame]) + Left(0, rest[n..], size) == ParsedAll(sent) + Frames(first, rest, size)
  {
    var payload := rest[..n];
    var frame := Raw(if |rest| <= size then first + FIN else first, payload);
    ParsedSnoc(sent, frame);
    ParsedFrame(first, |rest| <= size, payload);
    FramesUnfold(first, rest, size, n);
    Regroup(ParsedAll(sent), [Frame(first, |rest| <= size, payload)], Left(0, rest[n..], size));
  }

  lemma SentIsPrefix(sent: seq<Frame>, more: seq<Frame>)
    requires more != []
    ensures (sent + more)[..|sent|] == sent && |sent + more| > |sent|
  {
  }

  // ---- What is received ----

  // Frames put together again: a message begins with a non-zero opcode, goes on with
  // continuation frames, and ends with the frame that has FIN. Nothing on a protocol error.
  function Receive(frames: seq<Frame>, open: Option<Message>): Option<seq<Message>>
    decreases |frames|
  {
    if frames == [] then if open.Some? then None else Some([])
    else
      var f := frames[0];
      if (f.opcode == 0) != open.Some? then None
      else
        var m := if open.Some? then Message(open.value.opcode, open.value.data + f.payload)
          else Message(f.opcode, f.payload);
        if f.fin then
          var rest := Receive(frames[1..], None);
          if rest.None? then None else Some([m] + rest.value)
        else Receive(frames[1..], Some(m))
  }

  function SendAll(messages: seq<Message>, size: nat): seq<Frame>
    requires size > 0
  {
    if messages == [] then []
    else Frames(messages[0].opcode, messages[0].data, size) + SendAll(messages[1..], size)
  }

  lemma {:induction false} RestReceived(so: Message, data: seq<byte>, size: nat, later: seq<Frame>)
    requires size > 0
    ensures Receive(Frames(0, data, size) + later, Some(so)) ==
      var rest := Receive(later, None);
      if rest.None? then None else Some([Message(so.opcode, so.data + data)] + rest.value)
    decreases |data|
  {
    var frames := Frames(0, data, size) + later;
    if |data| <= size {
      assert frames[1..] == later;
    } else {
      var more := Frames(0, data[size..], size);
      assert frames[1..] == more + later;
      RestReceived(Message(so.opcode, so.data + data[..size]), data[size..], size, later);
      assert so.data + data[..size] + data[size..] == so.data + data;
    }
  }

  lemma OneReceived(m: Message, size: nat, later: seq<Frame>)
    requires size > 0 && m.opcode != 0
    ensures Receive(Frames(m.opcode, m.data, size) + later, None) ==
      var rest := Receive(later, None);
      if rest.None? then None else Some([m] + rest.value)
  {
    var frames := Frames(m.opcode, m.data, size) + later;
    if |m.data| <= size {
      assert frames[1..] == later;
    } else {
      assert frames[1..] == Frames(0, m.data[size..], size) + later;
      RestReceived(Message(m.opcode, m.data[..size]), m.data[size..], size, later);
      assert m.data[..size] + m.data[size..] == m.data;
    }
  }

  /** Whatever messages are sent one after the other, and whatever the buffer size, the receiver
      gets those messages. */
  lemma {:induction false} MessagesSurvive(messages: seq<Message>, size: nat)
    requires size > 0 && forall i :: 0 <= i < |messages| ==> messages[i].opcode != 0
    ensures Receive(SendAll(messages, size), None) == Some(messages)
  {
    if messages != [] {
      OneReceived(messages[0], size, SendAll(messages[1..], size));
      MessagesSurvive(messages[1..], size);
      assert messages == [messages[0]] + messages[1..];
    }
  }

  function Payloads(frames: seq<Frame>): seq<byte>
  {
    if frames == [] then [] else frames[0].payload + Payloads(frames[1..])
  }

  // The opcode on the first frame only, FIN on the last only, no frame longer than the buffer, and
  // all but the last as long as it.
  predicate Fragmented(fs: seq<Frame>, opcode: nat, size: nat)
  {
    && fs != [] && fs[0].opcode == opcode
    && (forall i :: 1 <= i < |fs| ==> fs[i].opcode == 0)
    && (forall i :: 0 <= i < |fs| ==> (fs[i].fin <==> i == |fs| - 1))
    && (forall i :: 0 <= i < |fs| ==> |fs[i].payload| <= size)
    && (forall i :: 0 <= i < |fs| - 1 ==> |fs[i].payload| == size)
  }

  lemma FirstFrame(first: Frame, rest: seq<Frame>, size: nat)
    requires Fragmented(rest, 0, size) && !first.fin && |first.payload| == size
    ensures Fragmented([first] + rest, first.opcode, size)
  {
    var fs := [first] + rest;
    assert forall i :: 1 <= i < |fs| ==> fs[i] == rest[i - 1];
  }

  lemma PayloadsCons(first: Frame, rest: seq<Frame>)
    ensures Payloads([first] + rest) == first.payload + Payloads(rest)
  {
    assert ([first] + rest)[1..] == rest;
  }

  /** The frames of a message carry all its data in order, are properly fragmented, and are as few
      as the buffer allows. */
  lemma {:induction false} FrameShape(opcode: nat, data: seq<byte>, size: nat)
    requires size > 0
    ensures var fs := Frames(opcode, data, size);
      && Fragmented(fs, opcode, size) && Payloads(fs) == data
      && (data != [] ==> (|fs| - 1) * size < |data| <= |fs| * size)
    decreases |data|
  {
    if |data| > size {
      var rest := Frames(0, data[size..], size);
      var first := Frame(opcode, false, data[..size]);
      FrameShape(0, data[size..], size);
      FirstFrame(first, rest, size);
      PayloadsCons(first, rest);
      FewFrames(|rest|, |data|, size);
      assert data[..size] + data[size..] == data;
    } else {
      PayloadsCons(Frame(opcode, true, data), []);
      assert [Frame(opcode, true, data)] + [] == [Frame(opcode, true, data)];
      assert data + [] == data;
    }
  }

  lemma FewFrames(n: nat, len: nat, size: nat)
    requires len > size && (n - 1) * size < len - size <= n * size
    ensures n * size < len <= (n + 1) * size
  {
    assert (n - 1) * size == n * size - size && (n + 1) * size == n * size + size;
  }

  // A message cut short by a failing write is never taken for a complete one.
  lemma {:induction false} CutShort(opcode: nat, data: seq<byte>, size: nat, n: nat, open: Option<Message>)
    requires size > 0 && n < |Frames(opcode, data, size)| && (opcode == 0 <==> open.Some?)
    ensures Receive(Frames(opcode, data, size)[..n], open) == if n == 0 && open.None? then Some([]) else None
    decreases |data|
  {
    var frames := Frames(opcode, data, size)[..n];
    if n > 0 {
      var rest := Frames(0, data[size..], size);
      assert frames[1..] == rest[..n - 1];
      var m := if open.Some? then Message(open.value.opcode, open.value.data + data[..size])
        else Message(opcode, data[..size]);
      CutShort(0, data[size..], size, n - 1, Some(m));
    }
  }
}
