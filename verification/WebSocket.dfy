/** WebSocket framing (sections 5.2 to 5.5 of RFC 6455) over a byte stream that
    arrives in pieces of any size. */
module WebSocket {
  import opened Wrappers

  datatype Frame = Frame(fin: bool, opcode: nat, payload: Bytes)

  /** A frame as a peer puts it on the wire: servers send unmasked, clients masked. */
  datatype Wired = Wired(frame: Frame, mask: Option<Bytes>)

  predicate Legal(w: Wired) {
    && w.frame.opcode < 16
    && |w.frame.payload| < 0x1_0000_0000_0000_0000
    && (w.mask.Some? ==> |w.mask.value| == 4)
  }

  // ---- exclusive or ----

  function XorBits(a: nat, b: nat, bits: nat): (x: nat)
    decreases bits
  {
    if bits == 0 then 0
    else (if a % 2 != b % 2 then 1 else 0) + 2 * XorBits(a / 2, b / 2, bits - 1)
  }

  function Pow2(n: nat): (p: nat) ensures p > 0 { if n == 0 then 1 else 2 * Pow2(n - 1) }

  lemma {:induction false} XorInRange(a: nat, b: nat, bits: nat)
    ensures XorBits(a, b, bits) < Pow2(bits)
  {
    if bits > 0 { XorInRange(a / 2, b / 2, bits - 1); }
  }

  lemma {:induction false} XorUndone(a: nat, b: nat, bits: nat)
    requires a < Pow2(bits)
    ensures XorBits(XorBits(a, b, bits), b, bits) == a
  {
    if bits > 0 {
      XorUndone(a / 2, b / 2, bits - 1);
      var x := XorBits(a, b, bits);
      assert x / 2 == XorBits(a / 2, b / 2, bits - 1);
      assert x % 2 == if a % 2 != b % 2 then 1 else 0;
    }
  }

  function Xor(a: byte, b: byte): byte {
    XorInRange(a as nat, b as nat, 8);
    XorBits(a as nat, b as nat, 8) as byte
  }

  function Masked(mask: Bytes, data: Bytes): (r: Bytes)
    requires |mask| == 4
    ensures |r| == |data|
  {
    seq(|data|, i requires 0 <= i < |data| => Xor(data[i], mask[i % 4]))
  }

  /** Masking twice with the same key gives the data back. */
  lemma {:induction false} MaskUndone(mask: Bytes, data: Bytes)
    requires |mask| == 4
    ensures Masked(mask, Masked(mask, data)) == data
  {
    forall i | 0 <= i < |data| ensures Masked(mask, Masked(mask, data))[i] == data[i] {
      XorUndone(data[i] as nat, mask[i % 4] as nat, 8);
      hide XorBits;
    }
  }

  // ---- lengths in network order ----

  function BigEndian(n: nat, size: nat): (b: Bytes)
    ensures |b| == size
  {
    if size == 0 then [] else BigEndian(n / 256, size - 1) + [(n % 256) as byte]
  }

  function FromBigEndian(b: Bytes): nat {
    if b == [] then 0 else 256 * FromBigEndian(b[..|b| - 1]) + b[|b| - 1] as nat
  }

  function Pow256(n: nat): nat { if n == 0 then 1 else 256 * Pow256(n - 1) }

  lemma {:induction false} BigEndianUndone(n: nat, size: nat)
    requires n < Pow256(size)
    ensures FromBigEndian(BigEndian(n, size)) == n
  {
    if size > 0 {
      BigEndianUndone(n / 256, size - 1);
      var b := BigEndian(n, size);
      assert b[..|b| - 1] == BigEndian(n / 256, size - 1);
    }
  }

  // ---- the encoder ----

  function LengthBytes(flag: nat, length: nat): (b: Bytes)
    requires flag == 0 || flag == 128
    requires length < 0x1_0000_0000_0000_0000
    ensures |b| >= 1
  {
    if length < 126 then [(flag + length) as byte]
    else if length <= 0xFFFF then [(flag + 126) as byte] + BigEndian(length, 2)
    else [(flag + 127) as byte] + BigEndian(length, 8)
  }

  /** The bytes of one frame. */
  function Wire(w: Wired): Bytes
    requires Legal(w)
  {
    [((if w.frame.fin then 128 else 0) + w.frame.opcode) as byte]
    + LengthBytes(if w.mask.Some? then 128 else 0, |w.frame.payload|)
    + (if w.mask.Some? then w.mask.value + Masked(w.mask.value, w.frame.payload) else w.frame.payload)
  }

  function WireAll(ws: seq<Wired>): Bytes
    requires forall i :: 0 <= i < |ws| ==> Legal(ws[i])
  {
    if ws == [] then [] else Wire(ws[0]) + WireAll(ws[1..])
  }

  function FramesOf(ws: seq<Wired>): (fs: seq<Frame>)
    ensures |fs| == |ws| && forall i :: 0 <= i < |ws| ==> fs[i] == ws[i].frame
  {
    seq(|ws|, i requires 0 <= i < |ws| => ws[i].frame)
  }

  // ---- the decoder ----

  /** The first n bytes and what follows, or nothing when the stream ends before. */
  function Take(s: Bytes, n: nat): Option<(Bytes, Bytes)> {
    if |s| < n then None else Some((s[..n], s[n..]))
  }

  /** The payload length announced by the seven-bit field, and what follows it. */
  function DecodeLength(short: nat, s: Bytes): Option<(nat, Bytes)> {
    if short == 126 then
      match Take(s, 2) { case None => None case Some((b, rest)) => Some((FromBigEndian(b), rest)) }
    else if short == 127 then
      match Take(s, 8) { case None => None case Some((b, rest)) => Some((FromBigEndian(b), rest)) }
    else Some((short, s))
  }

  function DecodePayload(masked: bool, length: nat, s: Bytes): Option<(Bytes, Bytes)> {
    match Take(s, if masked then 4 else 0)
    case None => None
    case Some((mask, body)) =>
      match Take(body, length)
      case None => None
      case Some((payload, rest)) => Some((if masked then Masked(mask, payload) else payload, rest))
  }

  function DecodeFrame(s: Bytes): Option<(Frame, Bytes)> {
    if |s| < 2 then None
    else
      match DecodeLength(s[1] as nat % 128, s[2..])
      case None => None
      case Some((length, body)) =>
        match DecodePayload(s[1] >= 128, length, body)
        case None => None
        case Some((payload, rest)) => Some((Frame(s[0] >= 128, s[0] as nat % 16, payload), rest))
  }

  lemma {:induction false} LengthRoundTrip(flag: nat, length: nat, rest: Bytes)
    requires (flag == 0 || flag == 128) && length < 0x1_0000_0000_0000_0000
    ensures var b := LengthBytes(flag, length);
            && (b[0] >= 128 <==> flag == 128)
            && DecodeLength(b[0] as nat % 128, b[1..] + rest) == Some((length, rest))
  {
    hide BigEndian, FromBigEndian;
    var b := LengthBytes(flag, length);
    if length < 126 {
      assert b[1..] + rest == rest;
    } else if length <= 0xFFFF {
      TakeBack(BigEndian(length, 2), rest);
      Powers();
      BigEndianUndone(length, 2);
      assert b[1..] == BigEndian(length, 2);
    } else {
      TakeBack(BigEndian(length, 8), rest);
      Powers();
      BigEndianUndone(length, 8);
      assert b[1..] == BigEndian(length, 8);
    }
  }

  lemma Powers()
    ensures Pow256(2) == 0x1_0000 && Pow256(8) == 0x1_0000_0000_0000_0000
  {
    assert Pow256(4) == 0x1_0000_0000;
  }

  lemma TakeBack(s: Bytes, rest: Bytes)
    ensures Take(s + rest, |s|) == Some((s, rest))
  {
    assert (s + rest)[..|s|] == s && (s + rest)[|s|..] == rest;
  }

  lemma PayloadRoundTrip(mask: Option<Bytes>, payload: Bytes, rest: Bytes)
    requires mask.Some? ==> |mask.value| == 4
    ensures DecodePayload(mask.Some?, |payload|,
                          (if mask.Some? then mask.value + Masked(mask.value, payload) else payload) + rest)
            == Some((payload, rest))
  {
    hide Xor;
    if mask.Some? {
      var m, data := mask.value, Masked(mask.value, payload);
      MaskUndone(m, payload);
      assert ((m + data) + rest)[..4] == m && ((m + data) + rest)[4..] == data + rest;
      assert (data + rest)[..|data|] == data && (data + rest)[|data|..] == rest;
    } else {
      assert (payload + rest)[..0] == [] && (payload + rest)[0..] == payload + rest;
      assert (payload + rest)[..|payload|] == payload && (payload + rest)[|payload|..] == rest;
    }
  }

  /** A frame is decoded to itself, and nothing after it is touched. */
  lemma {:induction false} FrameRoundTrip(w: Wired, rest: Bytes)
    requires Legal(w)
    ensures DecodeFrame(Wire(w) + rest) == Some((w.frame, rest))
  {
    hide LengthBytes, DecodeLength, DecodePayload, Masked;
    var flag := if w.mask.Some? then 128 else 0;
    var len := LengthBytes(flag, |w.frame.payload|);
    var body := if w.mask.Some? then w.mask.value + Masked(w.mask.value, w.frame.payload) else w.frame.payload;
    LengthRoundTrip(flag, |w.frame.payload|, body + rest);
    PayloadRoundTrip(w.mask, w.frame.payload, rest);
    var s := Wire(w) + rest;
    assert s == [s[0]] + len + body + rest;
    assert s[1] == len[0];
    assert s[2..] == len[1..] + (body + rest);
  }

  /** Decoding one frame after another. */
  ghost predicate Splits(s: Bytes, frames: seq<Frame>, rest: Bytes)
    decreases |frames|
  {
    if frames == [] then s == rest
    else
      var d := DecodeFrame(s);
      d.Some? && d.value.0 == frames[0] && Splits(d.value.1, frames[1..], rest)
  }

  /** Concatenated frames are decoded to the same opcodes, flags and payloads. */
  lemma {:induction false} StreamRoundTrip(ws: seq<Wired>, rest: Bytes)
    requires forall i :: 0 <= i < |ws| ==> Legal(ws[i])
    ensures Splits(WireAll(ws) + rest, FramesOf(ws), rest)
  {
    hide DecodeFrame, Wire;
    if ws == [] {
      assert [] + rest == rest;
    } else {
      FrameRoundTrip(ws[0], WireAll(ws[1..]) + rest);
      assert WireAll(ws) + rest == Wire(ws[0]) + (WireAll(ws[1..]) + rest);
      StreamRoundTrip(ws[1..], rest);
      assert FramesOf(ws)[1..] == FramesOf(ws[1..]);
    }
  }

  /** A frame cut short anywhere is not a frame. */
  lemma {:induction false} TruncatedFrame(w: Wired, n: nat)
    requires Legal(w) && n < |Wire(w)|
    ensures DecodeFrame(Wire(w)[..n]).None?
  {
    hide *;
    var all := Wire(w);
    if DecodeFrame(all[..n]).Some? {
      DecodeExtends(all[..n], all[n..]);
      assert all[..n] + all[n..] == all + [];
      FrameRoundTrip(w, []);
    }
  }

  /** More bytes after a frame do not change how it is read. */
  lemma DecodeExtends(s: Bytes, more: Bytes)
    requires DecodeFrame(s).Some?
    ensures DecodeFrame(s + more) == Some((DecodeFrame(s).value.0, DecodeFrame(s).value.1 + more))
  {
    hide Masked, FromBigEndian;
    var all := s + more;
    assert all[2..] == s[2..] + more;
    TakeExtends(s[2..], more, 2);
    TakeExtends(s[2..], more, 8);
    var (length, body) := DecodeLength(s[1] as nat % 128, s[2..]).value;
    assert DecodeLength(all[1] as nat % 128, all[2..]) == Some((length, body + more));
    var m := if s[1] >= 128 then 4 else 0;
    TakeExtends(body, more, m);
    TakeExtends(body[m..], more, length);
  }

  lemma TakeExtends(s: Bytes, more: Bytes, n: nat)
    ensures n <= |s| ==> Take(s + more, n) == Some((s[..n], s[n..] + more))
  {
    if n <= |s| {
      assert (s + more)[..n] == s[..n];
      assert (s + more)[n..] == s[n..] + more;
    }
  }
}
