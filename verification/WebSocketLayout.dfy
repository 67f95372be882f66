/** The layout of a frame as section 5.2 of RFC 6455 draws it, byte by byte, and that both
    the encoder and the decoder keep to it. */
module WebSocketLayout {
  import opened Wrappers
  import opened WebSocket

  // ---- masking, bit by bit ----

  predicate Bit(n: nat, i: nat) {
    if i == 0 then n % 2 == 1 else Bit(n / 2, i - 1)
  }

  lemma {:induction false} XorBit(a: nat, b: nat, bits: nat, i: nat)
    requires i < bits
    ensures Bit(XorBits(a, b, bits), i) <==> Bit(a, i) != Bit(b, i)
  {
    var x := XorBits(a, b, bits);
    assert x / 2 == XorBits(a / 2, b / 2, bits - 1) && x % 2 == if a % 2 != b % 2 then 1 else 0;
    hide XorBits;
    if i > 0 { XorBit(a / 2, b / 2, bits - 1, i - 1); }
  }

  /** Each masked byte differs from the data in exactly the bits set in the byte of the key
      that is due, the key being used over and over. */
  lemma {:induction false} MaskedBits(mask: Bytes, data: Bytes, k: nat, i: nat)
    requires |mask| == 4 && k < |data| && i < 8
    ensures Bit(Masked(mask, data)[k] as nat, i) <==> Bit(data[k] as nat, i) != Bit(mask[k % 4] as nat, i)
  {
    XorBit(data[k] as nat, mask[k % 4] as nat, 8, i);
    hide Bit, XorBits;
  }

  // ---- the frame ----

  /** How many bytes give the length when the header does not. */
  function Extra(short: nat): nat {
    if short == 126 then 2 else if short == 127 then 8 else 0
  }

  /** The first byte counts most. */
  lemma {:induction false} NetworkOrder(b: Bytes)
    requires b != []
    ensures FromBigEndian(b) == b[0] as nat * Pow256(|b| - 1) + FromBigEndian(b[1..])
  {
    var n := |b| - 1;
    if n > 0 {
      NetworkOrder(b[..n]);
      assert b[..n][1..] == b[1..][..n - 1];
      Shifted(b[0] as nat, Pow256(n - 1));
    }
  }

  lemma Shifted(a: nat, p: nat)
    ensures 256 * (a * p) == a * (256 * p)
  {}

  /** The first `n` bytes are this frame. */
  ghost predicate LaidOut(s: Bytes, f: Frame, n: nat) {
    && 2 <= n <= |s| && f.opcode < 16 && s[0] as nat == (if f.fin then 128 else 0) + s[0] as nat % 128
    && s[0] as nat % 16 == f.opcode
    && var masked, short := s[1] >= 128, s[1] as nat % 128;
    && var start := 2 + Extra(short) + if masked then 4 else 0;
    && n == start + |f.payload|
    && |f.payload| == (if short < 126 then short else FromBigEndian(s[2..2 + Extra(short)]))
    && forall i :: 0 <= i < |f.payload| ==>
         f.payload[i] == if masked then Xor(s[start + i], s[start - 4 + i % 4]) else s[start + i]
  }

  lemma LengthAt(s: Bytes, short: nat)
    requires short < 128
    ensures DecodeLength(short, s) == if |s| < Extra(short) then None
              else Some((if short < 126 then short else FromBigEndian(s[..Extra(short)]), s[Extra(short)..]))
  {
    hide FromBigEndian;
    assert s[0..] == s;
  }

  lemma PayloadAt(s: Bytes, masked: bool, length: nat)
    ensures var m := if masked then 4 else 0;
            DecodePayload(masked, length, s) == if |s| < m + length then None
              else Some((if masked then Masked(s[..4], s[4..4 + length]) else s[..length], s[m + length..]))
  {
    hide Masked;
    var m := if masked then 4 else 0;
    if |s| >= m + length {
      assert s[m..][..length] == s[m..m + length] && s[m..][length..] == s[m + length..];
    }
  }

  /** The length a stream announces, and the frame it then begins with. */
  function LengthIn(s: Bytes): nat
    requires |s| >= 2 && |s| >= 2 + Extra(s[1] as nat % 128)
  {
    var short := s[1] as nat % 128;
    if short < 126 then short else FromBigEndian(s[2..2 + Extra(short)])
  }

  function StartIn(s: Bytes): nat
    requires |s| >= 2
  {
    2 + Extra(s[1] as nat % 128) + if s[1] >= 128 then 4 else 0
  }

  function PayloadIn(s: Bytes, at: nat, masked: bool, length: nat): Bytes
    requires at + (if masked then 4 else 0) + length <= |s|
  {
    if masked then Masked(s[at..][..4], s[at..][4..4 + length]) else s[at..][..length]
  }

  lemma DecodeAt(s: Bytes)
    requires |s| >= 2
    ensures var x := Extra(s[1] as nat % 128);
            DecodeFrame(s) ==
              if |s| < 2 + x || |s| < StartIn(s) + LengthIn(s) then None
              else Some((Frame(s[0] >= 128, s[0] as nat % 16, PayloadIn(s, 2 + x, s[1] >= 128, LengthIn(s))),
                         s[StartIn(s) + LengthIn(s)..]))
  {
    hide FromBigEndian, Masked, DecodeLength, DecodePayload;
    var masked, short := s[1] >= 128, s[1] as nat % 128;
    var x, m := Extra(short), if masked then 4 else 0;
    LengthAt(s[2..], short);
    if |s| >= 2 + x {
      assert s[2..][..x] == s[2..2 + x] && s[2..][x..] == s[2 + x..];
      PayloadAt(s[2 + x..], masked, LengthIn(s));
      if |s| >= StartIn(s) + LengthIn(s) {
        assert s[2 + x..][m + LengthIn(s)..] == s[StartIn(s) + LengthIn(s)..];
      }
    }
  }

  lemma LaidOutAt(s: Bytes, f: Frame, n: nat)
    requires n <= |s|
    ensures LaidOut(s, f, n) <==>
              && |s| >= 2 && |s| >= 2 + Extra(s[1] as nat % 128) && n == StartIn(s) + LengthIn(s)
              && f == Frame(s[0] >= 128, s[0] as nat % 16,
                            PayloadIn(s, 2 + Extra(s[1] as nat % 128), s[1] >= 128, LengthIn(s)))
  {
    hide FromBigEndian, Xor, PayloadIn;
    if |s| >= 2 && |s| >= StartIn(s) && n == StartIn(s) + LengthIn(s) {
      var at, masked := 2 + Extra(s[1] as nat % 128), s[1] >= 128;
      PayloadBytes(s, at, masked, LengthIn(s));
      if LaidOut(s, f, n) { assert f.payload == PayloadIn(s, at, masked, LengthIn(s)); }
    }
  }

  /** The decoder reads a frame off a stream if and only if the stream begins with it. */
  lemma {:induction false} DecodedIffLaidOut(s: Bytes, f: Frame, n: nat)
    requires n <= |s|
    ensures LaidOut(s, f, n) <==> DecodeFrame(s) == Some((f, s[n..]))
  {
    LaidOutAt(s, f, n);
    if |s| >= 2 { DecodeAt(s); }
    hide LaidOut, PayloadIn, LengthIn, StartIn;
    assert forall m: nat :: m <= |s| ==> |s[m..]| == |s| - m;
  }

  lemma PayloadBytes(s: Bytes, at: nat, masked: bool, length: nat)
    requires at + (if masked then 4 else 0) + length <= |s|
    ensures var payload := PayloadIn(s, at, masked, length);
            && |payload| == length
            && forall i :: 0 <= i < length ==>
                payload[i] == if masked then Xor(s[at + 4 + i], s[at + i % 4]) else s[at + i]
  {
    hide Xor;
  }

  /** What is sent is laid out so, in the shortest form that holds its length, with the
      mask in it when there is one. */
  lemma {:induction false} WireIsLaidOut(w: Wired)
    requires Legal(w)
    ensures var s, length := Wire(w), |w.frame.payload|;
            && LaidOut(s, w.frame, |s|) && (s[1] >= 128 <==> w.mask.Some?)
            && s[1] as nat % 128 == (if length < 126 then length else if length <= 0xFFFF then 126 else 127)
            && (w.mask.Some? ==> var at := 2 + Extra(s[1] as nat % 128); s[at..at + 4] == w.mask.value)
  {
    hide LaidOut, BigEndian, Masked;
    var s := Wire(w);
    FrameRoundTrip(w, []);
    assert s + [] == s && s[|s|..] == [];
    DecodedIffLaidOut(s, w.frame, |s|);
    hide DecodeFrame;
    var len := LengthBytes(if w.mask.Some? then 128 else 0, |w.frame.payload|);
    assert s[1] == len[0] && |len| == 1 + Extra(s[1] as nat % 128);
    if w.mask.Some? {
      var body := w.mask.value + Masked(w.mask.value, w.frame.payload);
      assert s == [s[0]] + len + body;
      assert s[1 + |len|..1 + |len| + 4] == body[..4] == w.mask.value;
    }
  }
}
