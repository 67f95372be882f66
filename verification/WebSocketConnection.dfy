/** The Python client's connection: reading frames from a socket, answering pings,
    reassembling messages. */
module WebSocketConnection {
  import opened Wrappers
  import opened WebSocket

  datatype Failure = Closed | Unsupported(opcode: nat) | ExpectedText

  // ---- messages, frame by frame ----

  predicate IsData(f: Frame) { f.opcode == 0x0 || f.opcode == 0x1 }

  /** Frames that do not end the wait for a message. */
  predicate Passes(f: Frame) {
    f.opcode == 0x9 || f.opcode == 0xA || (IsData(f) && !f.fin)
  }

  function DataOf(frames: seq<Frame>): (data: seq<Frame>)
    ensures frames != [] && IsData(frames[|frames| - 1]) ==> data != []
  {
    if frames == [] then []
    else
      var init, last := DataOf(frames[..|frames| - 1]), frames[|frames| - 1];
      if IsData(last) then init + [last] else init
  }

  function Payload(data: seq<Frame>): Bytes {
    if data == [] then [] else Payload(data[..|data| - 1]) + data[|data| - 1].payload
  }

  function Pings(frames: seq<Frame>): seq<Bytes> {
    if frames == [] then []
    else
      var init, last := Pings(frames[..|frames| - 1]), frames[|frames| - 1];
      if last.opcode == 0x9 then init + [last.payload] else init
  }

  ghost predicate AllPass(frames: seq<Frame>) {
    forall i :: 0 <= i < |frames| ==> Passes(frames[i])
  }

  /** Frames up to and including the first that ends the wait. */
  ghost predicate Complete(frames: seq<Frame>) {
    && frames != []
    && (forall i :: 0 <= i < |frames| - 1 ==> Passes(frames[i]))
    && !Passes(frames[|frames| - 1])
  }

  /** What the frame that ends the wait makes of it. */
  function Verdict(frames: seq<Frame>): Result<Bytes, Failure>
    requires frames != []
  {
    var last := frames[|frames| - 1];
    if last.opcode == 0x8 then Err(Closed)
    else if !IsData(last) then Err(Unsupported(last.opcode))
    else if DataOf(frames)[0].opcode != 0x1 then Err(ExpectedText)
    else Ok(Payload(DataOf(frames)))
  }

  /** What one wait for a message reads from the stream and returns. */
  ghost predicate Received(s: Bytes, frames: seq<Frame>, rest: Bytes, r: Result<Bytes, Failure>) {
    if Complete(frames) then Splits(s, frames, rest) && r == Verdict(frames)
    else
      && AllPass(frames) && rest == [] && r == Err(Closed)
      && exists partial :: Splits(s, frames, partial) && DecodeFrame(partial).None?
  }

  /** Each ping is answered, in order, by a pong with the same payload. */
  ghost predicate Answers(pongs: seq<Wired>, pings: seq<Bytes>) {
    && |pongs| == |pings|
    && forall i :: 0 <= i < |pongs| ==>
         Legal(pongs[i]) && pongs[i].mask.Some? && pongs[i].frame == Frame(true, 0xA, pings[i])
  }

  // ---- the connection ----

  class Connection {
    /** What the peer sends before it closes and has not been read yet. */
    var incoming: Bytes
    var sent: Bytes

    /** `socket.recv`: between one byte and what was asked for, nothing at the end. */
    method Recv(size: nat) returns (chunk: Bytes)
      requires size > 0
      modifies this`incoming
      ensures chunk + incoming == old(incoming) && |chunk| <= size
      ensures chunk == [] <==> old(incoming) == []
    {
      if incoming == [] { return []; }
      assert 1 <= size && 1 <= |incoming|;
      var n :| 1 <= n <= size && n <= |incoming|;
      chunk, incoming := incoming[..n], incoming[n..];
    }

    method RecvExact(size: nat) returns (r: Result<Bytes, Failure>)
      modifies this`incoming
      ensures match Take(old(incoming), size)
              case Some((bytes, rest)) => r == Ok(bytes) && incoming == rest
              case None => r == Err(Closed) && incoming == []
    {
      var remaining: nat, chunks: Bytes := size, [];
      while remaining > 0
        invariant chunks + incoming == old(incoming)
        invariant |chunks| + remaining == size
      {
        var chunk := Recv(remaining);
        if chunk == [] { return Err(Closed); }
        assert chunks + (chunk + incoming) == (chunks + chunk) + incoming;
        chunks := chunks + chunk;
        remaining := remaining - |chunk|;
      }
      r := Ok(chunks);
    }

    /** The length of a frame: in its header, or in the two or eight bytes after it. */
    method RecvLength(code: nat) returns (r: Result<nat, Failure>)
      modifies this`incoming
      ensures match DecodeLength(code, old(incoming))
              case Some((length, body)) => r == Ok(length) && incoming == body
              case None => r == Err(Closed) && incoming == []
    {
      hide FromBigEndian;
      if code != 126 && code != 127 { return Ok(code); }
      var b := RecvExact(if code == 126 then 2 else 8);
      r := if b.Ok? then Ok(FromBigEndian(b.value)) else Err(b.error);
    }

    method RecvPayload(masked: bool, length: nat) returns (r: Result<Bytes, Failure>)
      modifies this`incoming
      ensures match DecodePayload(masked, length, old(incoming))
              case Some((payload, rest)) => r == Ok(payload) && incoming == rest
              case None => r == Err(Closed) && incoming == []
    {
      hide Masked;
      ghost var body := incoming;
      assert body[0..] == body;
      var mask: Result<Bytes, Failure> := Ok([]);
      if masked {
        mask := RecvExact(4);
        if mask.Err? { return Err(mask.error); }
      }
      var payload := RecvExact(length);
      if payload.Err? { return Err(payload.error); }
      r := Ok(if masked then Masked(mask.value, payload.value) else payload.value);
    }

    method RecvFrame() returns (r: Result<Frame, Failure>)
      modifies this`incoming
      ensures match DecodeFrame(old(incoming))
              case Some((f, rest)) => r == Ok(f) && incoming == rest
              case None => r == Err(Closed) && incoming == []
    {
      hide DecodeLength, DecodePayload;
      var header := RecvExact(2);
      if header.Err? { return Err(header.error); }
      var length := RecvLength(header.value[1] as nat % 128);
      if length.Err? { return Err(length.error); }
      var payload := RecvPayload(header.value[1] >= 128, length.value);
      if payload.Err? { return Err(payload.error); }
      r := Ok(Frame(header.value[0] >= 128, header.value[0] as nat % 16, payload.value));
    }

    method Urandom() returns (mask: Bytes)
      ensures |mask| == 4
    {
      var a: byte, b: byte, c: byte, d: byte := *, *, *, *;
      mask := [a, b, c, d];
    }

    /** One final masked frame; the mask is the caller's to know only in proofs. */
    method SendFrame(opcode: nat, payload: Bytes) returns (ghost mask: Bytes)
      requires opcode < 16 && |payload| < 0x1_0000_0000_0000_0000
      modifies this`sent
      ensures |mask| == 4
      ensures sent == old(sent) + Wire(Wired(Frame(true, opcode, payload), Some(mask)))
    {
      hide Masked, BigEndian;
      var header: Bytes := [(128 + opcode) as byte];
      if |payload| < 126 {
        header := header + [(128 + |payload|) as byte];
      } else if |payload| <= 0xFFFF {
        header := header + [(128 + 126) as byte] + BigEndian(|payload|, 2);
      } else {
        header := header + [(128 + 127) as byte] + BigEndian(|payload|, 8);
      }
      var m := Urandom();
      sent := sent + (header + m + Masked(m, payload));
      mask := m;
      assert header == [(128 + opcode) as byte] + LengthBytes(128, |payload|);
      assert header + m + Masked(m, payload) == header + (m + Masked(m, payload));
    }

    method SendPong(payload: Bytes, ghost base: Bytes, ghost pings: seq<Bytes>, ghost pongs: seq<Wired>)
      returns (ghost pongs': seq<Wired>)
      requires |payload| < 0x1_0000_0000_0000_0000 && Answers(pongs, pings) && sent == base + WireAll(pongs)
      modifies this`sent
      ensures Answers(pongs', pings + [payload]) && sent == base + WireAll(pongs')
    {
      hide WireAll, Wire;
      ghost var mask := SendFrame(0xA, payload);
      ghost var pong := Wired(Frame(true, 0xA, payload), Some(mask));
      WireSnoc(pongs, pong);
      pongs' := pongs + [pong];
    }

    /** Waits for one text message: pings are answered, pongs skipped, fragments joined. */
    method RecvMessage() returns (r: Result<Bytes, Failure>, ghost frames: seq<Frame>, ghost pongs: seq<Wired>)
      modifies this
      ensures Received(old(incoming), frames, incoming, r)
      ensures Answers(pongs, Pings(frames)) && sent == old(sent) + WireAll(pongs)
    {
      hide Splits, WireAll, Wire, DecodeFrame, DataOf, Payload, Pings;
      var chunks: Bytes, opcode: Option<nat> := [], None;
      frames, pongs := [], [];
      NothingYet(incoming);
      while true
        invariant Splits(old(incoming), frames, incoming) && AllPass(frames)
        invariant Gathered(frames, opcode, chunks)
        invariant Answers(pongs, Pings(frames)) && sent == old(sent) + WireAll(pongs)
        decreases |incoming|
      {
        ghost var s, before := incoming, frames;
        var received := RecvFrame();
        if received.Err? {
          assert !Complete(frames) by { NotComplete(frames); }
          return Err(Closed), frames, pongs;
        }
        var frame := received.value;
        DecodeShrinks(s);
        SplitsSnoc(old(incoming), before, s);
        GatherOne(before, frame);
        frames := frames + [frame];
        assert frames[..|before|] == before;
        if frame.opcode == 0x8 {
          return Err(Closed), frames, pongs;
        }
        if frame.opcode == 0x9 {
          pongs := SendPong(frame.payload, old(sent), Pings(before), pongs);
          continue;
        }
        if frame.opcode == 0xA { continue; }
        if frame.opcode != 0x0 && frame.opcode != 0x1 {
          return Err(Unsupported(frame.opcode)), frames, pongs;
        }
        opcode := if opcode.None? then Some(frame.opcode) else opcode;
        chunks := chunks + frame.payload;
        if frame.fin {
          r := if opcode.value != 0x1 then Err(ExpectedText) else Ok(chunks);
          return r, frames, pongs;
        }
      }
    }
  }

  /** The loop's two variables against the data frames read so far. */
  ghost predicate Gathered(frames: seq<Frame>, opcode: Option<nat>, chunks: Bytes) {
    && chunks == Payload(DataOf(frames))
    && opcode == if DataOf(frames) == [] then None else Some(DataOf(frames)[0].opcode)
  }

  lemma {:induction false} GatherOne(frames: seq<Frame>, f: Frame)
    ensures DataOf(frames + [f]) == if IsData(f) then DataOf(frames) + [f] else DataOf(frames)
    ensures Pings(frames + [f]) == if f.opcode == 0x9 then Pings(frames) + [f.payload] else Pings(frames)
    ensures Payload(DataOf(frames) + [f]) == Payload(DataOf(frames)) + f.payload
  {
    assert (frames + [f])[..|frames|] == frames;
    var data := DataOf(frames);
    assert (data + [f])[..|data|] == data;
  }

  lemma NotComplete(frames: seq<Frame>)
    requires AllPass(frames)
    ensures !Complete(frames)
  {}

  lemma NothingYet(s: Bytes)
    ensures Splits(s, [], s) && WireAll([]) == [] && DataOf([]) == [] && Payload([]) == [] && Pings([]) == []
              && Answers([], [])
  {}

  lemma {:induction false} SplitsSnoc(s: Bytes, frames: seq<Frame>, mid: Bytes)
    requires Splits(s, frames, mid) && DecodeFrame(mid).Some?
    ensures Splits(s, frames + [DecodeFrame(mid).value.0], DecodeFrame(mid).value.1)
    decreases |frames|
  {
    hide DecodeFrame;
    var f, rest := DecodeFrame(mid).value.0, DecodeFrame(mid).value.1;
    if frames != [] {
      SplitsSnoc(DecodeFrame(s).value.1, frames[1..], mid);
      assert (frames + [f])[1..] == frames[1..] + [f];
    } else {
      assert ([f])[1..] == [];
    }
  }

  lemma {:induction false} WireSnoc(ws: seq<Wired>, w: Wired)
    requires Legal(w) && forall i :: 0 <= i < |ws| ==> Legal(ws[i])
    ensures WireAll(ws + [w]) == WireAll(ws) + Wire(w)
  {
    hide Wire;
    if ws == [] {
      assert (ws + [w])[1..] == [];
    } else {
      assert (ws + [w])[1..] == ws[1..] + [w];
      WireSnoc(ws[1..], w);
    }
  }

  lemma {:induction false} BigEndianBound(b: Bytes)
    ensures FromBigEndian(b) < Pow256(|b|)
  {
    if b != [] { BigEndianBound(b[..|b| - 1]); }
  }

  /** Decoding makes progress, and what it yields can be sent again. */
  lemma DecodeShrinks(s: Bytes)
    requires DecodeFrame(s).Some?
    ensures |DecodeFrame(s).value.1| < |s|
    ensures |DecodeFrame(s).value.0.payload| < 0x1_0000_0000_0000_0000
  {
    hide FromBigEndian, Masked;
    var short := s[1] as nat % 128;
    if short == 126 {
      BigEndianBound(s[2..][..2]);
      Powers();
    } else if short == 127 {
      BigEndianBound(s[2..][..8]);
      Powers();
    }
  }

  // ---- what peers get ----

  /** Decoding is deterministic: of two readings of one stream, both complete, one
      cannot stop earlier than the other. */
  lemma {:induction false} SplitsAgree(s: Bytes, a: seq<Frame>, restA: Bytes, b: seq<Frame>, restB: Bytes)
    requires Splits(s, a, restA) && Splits(s, b, restB) && |a| <= |b|
    ensures a == b[..|a|] && Splits(restA, b[|a|..], restB)
    decreases |a|
  {
    hide DecodeFrame;
    if a == [] {
      assert b[0..] == b;
    } else {
      SplitsAgree(DecodeFrame(s).value.1, a[1..], restA, b[1..], restB);
      assert b[1..][|a| - 1..] == b[|a|..];
      assert a == [a[0]] + a[1..] && b[..|a|] == [b[0]] + b[1..][..|a| - 1];
    }
  }

  /** A complete run of frames, masked or not, is what the wait reads, however the
      socket cut it up, and the bytes behind it stay for the next wait. */
  lemma {:induction false} MessageReceived(ws: seq<Wired>, tail: Bytes, frames: seq<Frame>, rest: Bytes,
                                           r: Result<Bytes, Failure>)
    requires (forall i :: 0 <= i < |ws| ==> Legal(ws[i])) && Complete(FramesOf(ws))
    requires Received(WireAll(ws) + tail, frames, rest, r)
    ensures frames == FramesOf(ws) && rest == tail && r == Verdict(FramesOf(ws))
  {
    hide DecodeFrame, Verdict, Passes, FramesOf, WireAll;
    var s, want := WireAll(ws) + tail, FramesOf(ws);
    StreamRoundTrip(ws, tail);
    var end :| Splits(s, frames, end) && (Complete(frames) ==> end == rest)
      && (!Complete(frames) ==> DecodeFrame(end).None?);
    if |frames| < |want| {
      SplitsAgree(s, frames, end, want, tail);
      if Complete(frames) { StopsAt(frames, want); }
    } else {
      SplitsAgree(s, want, tail, frames, end);
      StopsAt(want, frames);
    }
  }

  lemma StopsAt(a: seq<Frame>, b: seq<Frame>)
    requires Complete(a) && |a| <= |b| && a == b[..|a|] && (Complete(b) || AllPass(b))
    ensures a == b
  {
    var last := |a| - 1;
    assert b[last] == a[last] && !Passes(b[last]);
  }

  /** A text cut into pieces as section 5.4 of RFC 6455 asks: the first frame carries
      the opcode, the last the final flag. */
  function Fragments(pieces: seq<Bytes>): (frames: seq<Frame>)
    ensures |frames| == |pieces|
  {
    seq(|pieces|, i requires 0 <= i < |pieces| => Frame(i == |pieces| - 1, if i == 0 then 0x1 else 0x0, pieces[i]))
  }

  function Concat(pieces: seq<Bytes>): Bytes {
    if pieces == [] then [] else Concat(pieces[..|pieces| - 1]) + pieces[|pieces| - 1]
  }

  /** A fragmented text with pings and pongs in between, none of them fragmented, ending
      in its last fragment. */
  ghost predicate CarriesText(frames: seq<Frame>, pieces: seq<Bytes>) {
    && frames != [] && IsData(frames[|frames| - 1])
    && (forall i :: 0 <= i < |frames| ==> IsData(frames[i]) || frames[i].opcode == 0x9 || frames[i].opcode == 0xA)
    && WholeControls(frames)
    && DataOf(frames) == Fragments(pieces)
  }

  /** No control frame is fragmented. */
  ghost predicate WholeControls(frames: seq<Frame>) {
    forall i :: 0 <= i < |frames| && !IsData(frames[i]) ==> frames[i].fin
  }

  /** Every fragment after the first carries the continuation opcode. */
  ghost predicate ContinuesOnly(frames: seq<Frame>) {
    forall i :: 1 <= i < |DataOf(frames)| ==> DataOf(frames)[i].opcode == 0x0
  }

  lemma {:induction false} DataPrefix(frames: seq<Frame>, k: nat)
    requires k <= |frames|
    ensures |DataOf(frames[..k])| <= |DataOf(frames)|
    ensures DataOf(frames[..k]) == DataOf(frames)[..|DataOf(frames[..k])|]
    ensures k < |frames| && IsData(frames[|frames| - 1]) ==> |DataOf(frames[..k])| < |DataOf(frames)|
    decreases |frames|
  {
    if k < |frames| {
      var init := frames[..|frames| - 1];
      assert init[..k] == frames[..k];
      DataPrefix(init, k);
    } else {
      assert frames[..k] == frames;
    }
  }

  lemma {:induction false} PayloadIsConcat(pieces: seq<Bytes>, frames: seq<Frame>)
    requires |frames| == |pieces| && forall i :: 0 <= i < |frames| ==> frames[i].payload == pieces[i]
    ensures Payload(frames) == Concat(pieces)
  {
    if pieces != [] { PayloadIsConcat(pieces[..|pieces| - 1], frames[..|frames| - 1]); }
  }

  lemma {:induction false} TextIsComplete(frames: seq<Frame>, pieces: seq<Bytes>)
    requires CarriesText(frames, pieces)
    ensures Complete(frames) && Verdict(frames) == Ok(Concat(pieces))
  {
    hide Concat, Payload;
    var n := |frames| - 1;
    PayloadIsConcat(pieces, Fragments(pieces));
    assert frames[..n] + [frames[n]] == frames;
    assert DataOf(frames)[|pieces| - 1] == frames[n];
    forall k | 0 <= k < n ensures Passes(frames[k]) {
      DataPrefix(frames, k + 1);
      var d := DataOf(frames[..k + 1]);
      assert frames[..k + 1][k] == frames[k];
      assert IsData(frames[k]) ==> d[|d| - 1] == frames[k];
    }
  }

  /** However a text is fragmented, masked, mixed with pings and pongs and cut up by
      the socket, the wait returns exactly the text and leaves what follows. */
  lemma {:induction false} TextReassembled(ws: seq<Wired>, pieces: seq<Bytes>, tail: Bytes,
                                           frames: seq<Frame>, rest: Bytes, r: Result<Bytes, Failure>)
    requires (forall i :: 0 <= i < |ws| ==> Legal(ws[i])) && CarriesText(FramesOf(ws), pieces)
    requires Received(WireAll(ws) + tail, frames, rest, r)
    ensures r == Ok(Concat(pieces)) && rest == tail && Pings(frames) == Pings(FramesOf(ws))
  {
    hide *;
    TextIsComplete(FramesOf(ws), pieces);
    MessageReceived(ws, tail, frames, rest, r);
  }

  lemma {:induction false} FirstData(frames: seq<Frame>) returns (i: nat)
    requires DataOf(frames) != []
    ensures i < |frames| && DataOf(frames)[0] == frames[i] && IsData(frames[i])
    ensures forall j :: 0 <= j < i ==> !IsData(frames[j])
  {
    var n := |frames| - 1;
    if DataOf(frames[..n]) != [] {
      i := FirstData(frames[..n]);
    } else {
      i := n;
      NoData(frames[..n]);
    }
  }

  lemma {:induction false} NoData(frames: seq<Frame>)
    requires DataOf(frames) == []
    ensures forall j :: 0 <= j < |frames| ==> !IsData(frames[j])
  {
    if frames != [] { NoData(frames[..|frames| - 1]); }
  }

  /** How a wait ends: pings, pongs and unfinished data do not end it; a close frame closes,
      an unknown opcode is refused, and finished data is a message exactly when its first
      frame says text. */
  lemma {:induction false} VerdictLaw(frames: seq<Frame>) returns (first: nat)
    requires Complete(frames)
    ensures var last := frames[|frames| - 1];
            && (forall i :: 0 <= i < |frames| - 1 ==>
                  || frames[i].opcode == 0x9 || frames[i].opcode == 0xA
                  || ((frames[i].opcode == 0x0 || frames[i].opcode == 0x1) && !frames[i].fin))
            && (last.opcode == 0x8 ==> Verdict(frames) == Err(Closed))
            && (last.opcode != 0x8 && last.opcode != 0x0 && last.opcode != 0x1 ==>
                  last.opcode != 0x9 && last.opcode != 0xA && Verdict(frames) == Err(Unsupported(last.opcode)))
            && (last.opcode == 0x0 || last.opcode == 0x1 ==>
                  && last.fin && first < |frames| && IsData(frames[first])
                  && (forall j :: 0 <= j < first ==> !IsData(frames[j]))
                  && if frames[first].opcode == 0x1 then Verdict(frames).Ok? else Verdict(frames) == Err(ExpectedText))
  {
    first := 0;
    if IsData(frames[|frames| - 1]) { first := FirstData(frames); }
    hide DataOf, Payload;
  }

  // ---- what the standard asks for ----

  lemma {:induction false} OpenData(frames: seq<Frame>)
    requires AllPass(frames)
    ensures forall i :: 0 <= i < |DataOf(frames)| ==> IsData(DataOf(frames)[i]) && !DataOf(frames)[i].fin
  {
    if frames != [] { OpenData(frames[..|frames| - 1]); }
  }

  /** The data frames of an accepted message: only the last is final. */
  lemma {:induction false} AcceptedData(frames: seq<Frame>)
    requires Complete(frames) && Verdict(frames).Ok?
    ensures var data := DataOf(frames);
            && data != [] && data[0].opcode == 0x1
            && (forall i :: 0 <= i < |data| ==> IsData(data[i]) && (data[i].fin <==> i == |data| - 1))
  {
    var n := |frames| - 1;
    OpenData(frames[..n]);
  }

  /** Of the messages that are accepted, those section 5.4 of RFC 6455 allows are exactly
      the ones whose later fragments all carry the continuation opcode and whose pings and
      pongs are all final. */
  lemma {:induction false} StandardIff(frames: seq<Frame>)
    requires Complete(frames) && Verdict(frames).Ok?
    ensures (exists pieces :: CarriesText(frames, pieces)) <==> ContinuesOnly(frames) && WholeControls(frames)
  {
    var data := DataOf(frames);
    AcceptedData(frames);
    hide Verdict;
    if ContinuesOnly(frames) && WholeControls(frames) {
      var pieces := seq(|data|, i requires 0 <= i < |data| => data[i].payload);
      forall i | 0 <= i < |data| ensures data[i] == Fragments(pieces)[i] {}
      assert data == Fragments(pieces);
      LastIsData(frames);
      assert CarriesText(frames, pieces);
    }
    if pieces :| CarriesText(frames, pieces) {
      assert forall i :: 1 <= i < |data| ==> data[i] == Fragments(pieces)[i];
    }
  }

  lemma LastIsData(frames: seq<Frame>)
    requires Complete(frames) && Verdict(frames).Ok?
    ensures IsData(frames[|frames| - 1])
  {}

  /** A second fragment that repeats the text opcode is against the standard, and accepted. */
  lemma {:induction false} LaxFragments(a: Bytes, b: Bytes)
    ensures var frames := [Frame(false, 0x1, a), Frame(true, 0x1, b)];
            Complete(frames) && Verdict(frames) == Ok(a + b) && !exists pieces :: CarriesText(frames, pieces)
  {
    hide DataOf, Payload, CarriesText;
    var first, second := Frame(false, 0x1, a), Frame(true, 0x1, b);
    var frames := [first, second];
    NothingYet([]);
    GatherOne([], first);
    GatherOne([first], second);
    assert [] + [first] == [first] && [first] + [second] == frames && [] + a == a;
    assert DataOf(frames) == frames && Payload(frames) == a + b;
    StandardIff(frames);
    assert DataOf(frames)[1].opcode == 0x1;
  }

  /** A fragmented ping in the middle of a message is against the standard, and accepted. */
  lemma {:induction false} LaxPing(a: Bytes, p: Bytes, b: Bytes)
    ensures var frames := [Frame(false, 0x1, a), Frame(false, 0x9, p), Frame(true, 0x0, b)];
            && Complete(frames) && Verdict(frames) == Ok(a + b) && Pings(frames) == [p]
            && !exists pieces :: CarriesText(frames, pieces)
  {
    hide DataOf, Payload, Pings, CarriesText;
    var first, ping, last := Frame(false, 0x1, a), Frame(false, 0x9, p), Frame(true, 0x0, b);
    var frames := [first, ping, last];
    NothingYet([]);
    GatherOne([], first);
    GatherOne([first], ping);
    GatherOne([first, ping], last);
    assert [] + [first] == [first] && [first] + [ping] == [first, ping] && [first, ping] + [last] == frames;
    assert [] + a == a;
    assert DataOf(frames) == [first, last] && Payload(DataOf(frames)) == a + b;
    StandardIff(frames);
    assert !IsData(frames[1]) && !frames[1].fin;
  }

  /** A stream that ends inside a frame, before any complete message, is reported
      as closed: nothing of an unfinished message is returned. */
  lemma {:induction false} CutStreamIsClosed(ws: seq<Wired>, w: Wired, n: nat,
                                             frames: seq<Frame>, rest: Bytes, r: Result<Bytes, Failure>)
    requires (forall i :: 0 <= i < |ws| ==> Legal(ws[i])) && AllPass(FramesOf(ws))
    requires Legal(w) && n < |Wire(w)|
    requires Received(WireAll(ws) + Wire(w)[..n], frames, rest, r)
    ensures r == Err(Closed) && frames == FramesOf(ws)
  {
    hide DecodeFrame, Verdict, Passes, FramesOf, WireAll, Wire;
    var s, sent, cut := WireAll(ws) + Wire(w)[..n], FramesOf(ws), Wire(w)[..n];
    StreamRoundTrip(ws, cut);
    TruncatedFrame(w, n);
    var end :| Splits(s, frames, end) && (!Complete(frames) ==> DecodeFrame(end).None?);
    if |frames| <= |sent| {
      SplitsAgree(s, frames, end, sent, cut);
      if Complete(frames) { StopsAt(frames, sent); }
    } else {
      SplitsAgree(s, sent, cut, frames, end);
    }
  }
}
