/** The WebSocket exec stream of K8sClient.exec_pod: an incremental frame parser
    over a growing buffer, and the Kubernetes channel demultiplexer behind it.

    Frames follow RFC 6455 sections 5.2 (base framing) and 5.3 (masking). The
    socket is a sequence of chunks; the method is proved equal to a decoder of the
    whole byte stream, and that decoder is proved inverse to a frame encoder. */
module ExecStream {
  import opened Sequences

  /** A byte as its value. The bit operations of the source are written as the
      arithmetic they are: b & 0x0F is b % 16, b & 0x7F is b % 128, b & 0x80 tests
      b >= 128. */
  type byte = b: int | 0 <= b < 256
  type Bytes = seq<byte>

  /** Bitwise exclusive or, least significant bit first. */
  function Xor(a: nat, b: nat): nat
    decreases a + b
  {
    if a == 0 && b == 0 then 0
    else (if a % 2 == b % 2 then 0 else 1) + 2 * Xor(a / 2, b / 2)
  }

  lemma {:induction false} XorTwice(a: nat, k: nat)
    ensures Xor(Xor(a, k), k) == a
    decreases a + k
  {
    if a != 0 || k != 0 {
      XorTwice(a / 2, k / 2);
      var x := Xor(a, k);
      assert x / 2 == Xor(a / 2, k / 2);
      assert x != 0 || k != 0;
    }
  }

  lemma {:induction false} XorFits(a: nat, b: nat, bound: nat)
    requires a < bound && b < bound && Doubled(bound)
    ensures Xor(a, b) < bound
    decreases bound
  {
    if a != 0 || b != 0 { XorFits(a / 2, b / 2, bound / 2); }
  }

  /** The bit of weight 2 to the k. */
  predicate Bit(n: nat, k: nat) {
    if k == 0 then n % 2 == 1 else Bit(n / 2, k - 1)
  }

  /** Each bit of the result is the exclusive or of the bits there. */
  lemma {:induction false} XorBits(a: nat, b: nat, k: nat)
    ensures Bit(Xor(a, b), k) <==> (Bit(a, k) != Bit(b, k))
    decreases k
  {
    var x := Xor(a, b);
    assert x % 2 == (if a % 2 == b % 2 then 0 else 1) && x / 2 == Xor(a / 2, b / 2);
    if k > 0 { XorBits(a / 2, b / 2, k - 1); }
  }

  /** A number is known from its bits. */
  lemma {:induction false} BitsDetermine(a: nat, b: nat)
    requires forall k: nat :: Bit(a, k) <==> Bit(b, k)
    ensures a == b
    decreases a + b
  {
    assert a % 2 == b % 2 by { assert Bit(a, 0) <==> Bit(b, 0); }
    if a + b > 0 {
      forall k: nat ensures Bit(a / 2, k) <==> Bit(b / 2, k) { assert Bit(a, k + 1) <==> Bit(b, k + 1); }
      BitsDetermine(a / 2, b / 2);
    }
  }

  /** bound is a power of two */
  predicate Doubled(bound: nat) {
    bound == 1 || (bound > 0 && bound % 2 == 0 && Doubled(bound / 2))
  }

  function XorByte(a: byte, b: byte): byte {
    assert Doubled(256) by { assert Doubled(32); }
    XorFits(a, b, 256);
    Xor(a, b)
  }

  // ---------------------------------------------------------------- big-endian

  /** int.from_bytes(bs, "big") */
  function BigEndian(bs: Bytes): nat {
    if |bs| == 0 then 0 else BigEndian(bs[..|bs| - 1]) * 256 + bs[|bs| - 1]
  }

  function Pow256(k: nat): nat {
    if k == 0 then 1 else 256 * Pow256(k - 1)
  }

  function ToBigEndian(n: nat, k: nat): (bs: Bytes)
    requires n < Pow256(k)
    ensures |bs| == k
  {
    if k == 0 then [] else ToBigEndian(n / 256, k - 1) + [n % 256]
  }

  lemma {:induction false} BigEndianInverts(n: nat, k: nat)
    requires n < Pow256(k)
    ensures BigEndian(ToBigEndian(n, k)) == n
  {
    if k > 0 {
      var front, last := ToBigEndian(n / 256, k - 1), n % 256;
      BigEndianInverts(n / 256, k - 1);
      BigEndianSnoc(front, last);
    }
  }

  lemma BigEndianSnoc(front: Bytes, last: byte)
    ensures BigEndian(front + [last]) == BigEndian(front) * 256 + last
  {
    assert (front + [last])[..|front|] == front;
  }

  lemma {:induction false} ToBigEndianInverts(bs: Bytes)
    ensures BigEndian(bs) < Pow256(|bs|)
    ensures ToBigEndian(BigEndian(bs), |bs|) == bs
  {
    if |bs| > 0 {
      var front, b := bs[..|bs| - 1], bs[|bs| - 1];
      ToBigEndianInverts(front);
      var n := BigEndian(bs);
      assert n / 256 == BigEndian(front) && n % 256 == b;
      assert bs == front + [b];
    }
  }

  // -------------------------------------------------------------------- frames

  /** How a frame states its payload length: in seven bits, or in the two or
      eight bytes that follow (section 5.2). */
  datatype LengthForm = Short | Medium | Long

  /** One frame as it travels: the whole first byte (FIN, reserved bits and
      opcode), the length form, the optional masking key, the payload bytes
      exactly as sent. */
  datatype Frame = Frame(first: byte, form: LengthForm, mask: Mask, body: Bytes)

  /** The masking key, if the frame is masked. */
  datatype Mask = Unmasked | Key(k0: byte, k1: byte, k2: byte, k3: byte)

  function MaskBytes(mask: Mask): Bytes {
    match mask case Unmasked => [] case Key(a, b, c, d) => [a, b, c, d]
  }

  function KeyByte(mask: Mask, i: nat): byte
    requires mask.Key?
  {
    if i % 4 == 0 then mask.k0 else if i % 4 == 1 then mask.k1 else if i % 4 == 2 then mask.k2 else mask.k3
  }

  function FormSize(form: LengthForm): nat {
    match form case Short => 0 case Medium => 2 case Long => 8
  }

  /** The length form is wide enough for the payload. */
  predicate ValidFrame(f: Frame) {
    if f.form.Short? then |f.body| < 126 else |f.body| < Pow256(FormSize(f.form))
  }

  function Opcode(f: Frame): byte {
    f.first % 16
  }

  /** Payload unmasking: byte i is xor-ed with key byte i mod 4 (section 5.3). */
  function Masked(mask: Mask, body: Bytes): (r: Bytes)
    ensures |r| == |body|
  {
    if mask.Unmasked? then body
    else seq(|body|, i requires 0 <= i < |body| => XorByte(body[i], KeyByte(mask, i)))
  }

  lemma MaskedTwice(mask: Mask, body: Bytes)
    ensures Masked(mask, Masked(mask, body)) == body
  {
    if mask.Key? {
      var once := Masked(mask, body);
      forall i | 0 <= i < |body| ensures Masked(mask, once)[i] == body[i] {
        assert once[i] == XorByte(body[i], KeyByte(mask, i));
        XorTwice(body[i], KeyByte(mask, i));
      }
    }
  }

  function LengthCode(f: Frame): byte
    requires ValidFrame(f)
  {
    match f.form
    case Short => |f.body|
    case Medium => 126
    case Long => 127
  }

  function SecondOf(code: byte, masked: bool): byte
    requires code < 128
  {
    if masked then code + 128 else code
  }

  function FixedPart(f: Frame): Bytes
    requires ValidFrame(f)
  {
    [f.first, SecondOf(LengthCode(f), f.mask.Key?)]
  }

  function ExtendedPart(f: Frame): (r: Bytes)
    requires ValidFrame(f)
    ensures |r| == FormSize(f.form)
  {
    if f.form.Short? then [] else ToBigEndian(|f.body|, FormSize(f.form))
  }

  function Head(f: Frame): (r: Bytes)
    requires ValidFrame(f)
    ensures |r| == 2 + FormSize(f.form) + |MaskBytes(f.mask)|
  {
    FixedPart(f) + ExtendedPart(f) + MaskBytes(f.mask)
  }

  function Encode(f: Frame): (r: Bytes)
    requires ValidFrame(f)
    ensures |r| >= 2
  {
    Head(f) + f.body
  }

  predicate AllValid(fs: seq<Frame>) {
    forall i :: 0 <= i < |fs| ==> ValidFrame(fs[i])
  }

  function EncodeAll(fs: seq<Frame>): Bytes
    requires AllValid(fs)
  {
    if fs == [] then [] else Encode(fs[0]) + EncodeAll(fs[1..])
  }

  // ------------------------------------------------------------ one-frame parser

  datatype Parsed = Short | Parsed(frame: Frame, size: nat)

  /** The seven length bits of a second byte, and its mask bit. */
  function LengthBits(second: byte): byte {
    second % 128
  }

  predicate MaskBit(second: byte) {
    second >= 128
  }

  function FormOf(second: byte): LengthForm {
    var code := LengthBits(second);
    if code == 126 then Medium else if code == 127 then Long else LengthForm.Short
  }

  function MaskSize(second: byte): nat {
    if MaskBit(second) then 4 else 0
  }

  /** Bytes of the head of the frame that starts s, known from its second byte. */
  function HeadSize(second: byte): nat {
    2 + FormSize(FormOf(second)) + MaskSize(second)
  }

  function MaskIn(s: Bytes): Mask
    requires |s| >= 2 && |s| >= HeadSize(s[1])
  {
    if !MaskBit(s[1]) then Unmasked
    else
      var k := 2 + FormSize(FormOf(s[1]));
      Key(s[k], s[k + 1], s[k + 2], s[k + 3])
  }

  function BodySize(s: Bytes): nat
    requires |s| >= 2 && |s| >= 2 + FormSize(FormOf(s[1]))
  {
    match FormOf(s[1])
    case Short => LengthBits(s[1])
    case _ => BigEndian(s[2..2 + FormSize(FormOf(s[1]))])
  }

  /** The frame that starts s, or Short when s ends inside it. */
  function Parse(s: Bytes): (p: Parsed)
    ensures p.Parsed? ==> 2 <= p.size <= |s|
  {
    if |s| < 2 || |s| < HeadSize(s[1]) then Parsed.Short
    else
      var head := HeadSize(s[1]);
      var size := head + BodySize(s);
      if |s| < size then Parsed.Short
      else Parsed(Frame(s[0], FormOf(s[1]), MaskIn(s), s[head..size]), size)
  }

  lemma CutThree(s: Bytes, a: Bytes, b: Bytes, c: Bytes)
    requires |s| >= |a| + |b| + |c| && s[..|a| + |b| + |c|] == a + b + c
    ensures s[..|a|] == a
    ensures s[|a|..|a| + |b|] == b
    ensures s[|a| + |b|..|a| + |b| + |c|] == c
  {
    var t := s[..|a| + |b| + |c|];
    assert s[..|a|] == t[..|a|] == a;
    assert s[|a|..|a| + |b|] == t[|a|..|a| + |b|] == b;
    assert s[|a| + |b|..|a| + |b| + |c|] == t[|a| + |b|..] == c;
  }

  /** Where each part of a frame's head sits, and what the parser reads there. */
  lemma HeadShape(f: Frame, s: Bytes)
    requires ValidFrame(f)
    requires |s| >= |Head(f)| && s[..|Head(f)|] == Head(f)
    ensures s[0] == f.first && FormOf(s[1]) == f.form && HeadSize(s[1]) == |Head(f)|
    ensures BodySize(s) == |f.body|
    ensures MaskIn(s) == f.mask
  {
    var mask, k := MaskBytes(f.mask), 2 + FormSize(f.form);
    CutThree(s, FixedPart(f), ExtendedPart(f), mask);
    assert s[0] == s[..2][0] && s[1] == s[..2][1];
    if f.mask.Key? {
      var t := s[k..k + |mask|];
      assert t[0] == s[k] && t[1] == s[k + 1] && t[2] == s[k + 2] && t[3] == s[k + 3];
    }
    if !f.form.Short? {
      BigEndianInverts(|f.body|, FormSize(f.form));
    }
  }

  /** Parsing undoes encoding, whatever follows the frame. */
  lemma ParseEncode(f: Frame, tail: Bytes)
    requires ValidFrame(f)
    ensures Parse(Encode(f) + tail) == Parsed(f, |Encode(f)|)
  {
    var s, head := Encode(f) + tail, |Head(f)|;
    Associates(Head(f), f.body, tail);
    Appended(Head(f), f.body + tail);
    HeadShape(f, s);
    SliceOfPrefix(Encode(f), tail, head, head + |f.body|);
    Appended(Head(f), f.body);
  }

  /** The same head again, from the parts the parser cut out. */
  lemma HeadOfParts(f: Frame, s: Bytes)
    requires |s| >= 2 && |s| >= HeadSize(s[1])
    requires |f.body| == BodySize(s) && f.first == s[0] && f.form == FormOf(s[1])
    requires f.mask == MaskIn(s)
    ensures ValidFrame(f) && Head(f) == s[..HeadSize(s[1])]
  {
    var ext, head := FormSize(f.form), HeadSize(s[1]);
    if !f.form.Short? {
      ToBigEndianInverts(s[2..2 + ext]);
    }
    assert LengthCode(f) == LengthBits(s[1]) && FixedPart(f) == s[..2];
    assert ExtendedPart(f) == s[2..2 + ext];
    assert MaskBytes(f.mask) == s[2 + ext..head];
    Splits(s, 2, 2 + ext);
    Splits(s, 2 + ext, head);
  }

  /** Encoding undoes parsing: the parser reads exactly the frame's own bytes, so
      no other reading of the prefix exists. */
  lemma EncodeParse(s: Bytes)
    requires Parse(s).Parsed?
    ensures ValidFrame(Parse(s).frame)
    ensures Encode(Parse(s).frame) == s[..Parse(s).size]
  {
    var Parsed(f, size) := Parse(s);
    HeadOfParts(f, s);
    Splits(s, HeadSize(s[1]), size);
  }

  /** What the parser decided on a prefix it keeps on every extension. */
  lemma ParsePrefix(s: Bytes, more: Bytes)
    requires Parse(s).Parsed?
    ensures Parse(s + more) == Parse(s)
  {
    EncodeParse(s);
    var Parsed(f, size) := Parse(s);
    Splits(s, size, size);
    Associates(Encode(f), s[size..], more);
    ParseEncode(f, s[size..] + more);
  }

  lemma DigitStep(t: Bytes, k: nat)
    requires k < |t|
    ensures BigEndian(t[..k + 1]) == BigEndian(t[..k]) * 256 + t[k]
  {
    BigEndianSnoc(t[..k], t[k]);
    assert t[..k + 1] == t[..k] + [t[k]];
  }

  /** The two extended lengths, read out: the most significant byte comes first. */
  lemma Digits(t: Bytes)
    ensures |t| == 2 ==> BigEndian(t) == (t[0] as int) * 256 + t[1]
    ensures |t| == 8 ==>
              BigEndian(t)
              == (((((((t[0] as int) * 256 + t[1]) * 256 + t[2]) * 256 + t[3]) * 256
                   + t[4]) * 256 + t[5]) * 256 + t[6]) * 256 + t[7]
  {
    assert t[..|t|] == t && BigEndian(t[..0]) == 0;
    if |t| >= 2 {
      DigitStep(t, 0);
      DigitStep(t, 1);
    }
    if |t| == 8 {
      DigitStep(t, 2);
      DigitStep(t, 3);
      DigitStep(t, 4);
      DigitStep(t, 5);
      DigitStep(t, 6);
      DigitStep(t, 7);
    }
  }

  /** What the first bytes say by themselves: where the payload starts, and that a
      stream too short to hold its head parses as nothing. */
  lemma HeadOnWire(s: Bytes, h: nat)
    requires |s| >= 2
    requires h == (if s[1] % 128 == 126 then 4 else if s[1] % 128 == 127 then 10 else 2)
                  + if s[1] >= 128 then 4 else 0
    ensures |s| < h ==> Parse(s).Short?
    ensures HeadSize(s[1]) == h
  {
  }

  lemma LengthOnWire(s: Bytes, n: nat)
    requires |s| >= 2 && |s| >= if s[1] % 128 == 126 then 4 else if s[1] % 128 == 127 then 10 else 2
    requires n == (if s[1] % 128 == 126 then (s[2] as int) * 256 + s[3]
                   else if s[1] % 128 == 127 then
                     (((((((s[2] as int) * 256 + s[3]) * 256 + s[4]) * 256 + s[5]) * 256
                        + s[6]) * 256 + s[7]) * 256 + s[8]) * 256 + s[9]
                   else s[1] % 128)
    ensures BodySize(s) == n
  {
    hide BigEndian;
    if s[1] % 128 == 126 {
      Digits(s[2..4]);
    } else if s[1] % 128 == 127 {
      Digits(s[2..10]);
    }
  }

  /** The first frame of a stream, byte by byte. Its head is h bytes, its payload n.
      In a masked frame the last four bytes of the head are the key, and payload
      byte i is the byte sent xor-ed with key byte i modulo 4. */
  lemma ParseOnWire(s: Bytes, h: nat, n: nat)
    requires |s| >= 2
    requires h == (if s[1] % 128 == 126 then 4 else if s[1] % 128 == 127 then 10 else 2)
                  + if s[1] >= 128 then 4 else 0
    requires |s| >= h
    requires n == (if s[1] % 128 == 126 then (s[2] as int) * 256 + s[3]
                   else if s[1] % 128 == 127 then
                     (((((((s[2] as int) * 256 + s[3]) * 256 + s[4]) * 256 + s[5]) * 256
                        + s[6]) * 256 + s[7]) * 256 + s[8]) * 256 + s[9]
                   else s[1] % 128)
    ensures Parse(s).Parsed? <==> h + n <= |s|
    ensures Parse(s).Parsed? ==>
              && Parse(s).size == h + n
              && var payload := Masked(Parse(s).frame.mask, Parse(s).frame.body);
                 && |payload| == n
                 && forall i :: 0 <= i < n ==>
                      payload[i] == if s[1] >= 128 then Xor(s[h + i], s[h - 4 + i % 4]) else s[h + i]
  {
    HeadOnWire(s, h);
    LengthOnWire(s, n);
    if h + n <= |s| {
      var f := Parse(s).frame;
      assert f.body == s[h..h + n] && f.mask == MaskIn(s);
      forall i | 0 <= i < n
        ensures Masked(f.mask, f.body)[i] == if s[1] >= 128 then Xor(s[h + i], s[h - 4 + i % 4]) else s[h + i]
      {
        assert f.body[i] == s[h + i];
        if s[1] >= 128 { assert KeyByte(f.mask, i) == s[h - 4 + i % 4]; }
      }
    }
  }

  // -------------------------------------------------------------- demultiplexer

  /** The three joined byte strings exec_pod hands on. */
  datatype Streams = Streams(out: Bytes, err: Bytes, status: Bytes)

  const NOTHING := Streams([], [], [])

  function Join(a: Streams, b: Streams): Streams {
    Streams(a.out + b.out, a.err + b.err, a.status + b.status)
  }

  predicate IsData(f: Frame) {
    Opcode(f) == 1 || Opcode(f) == 2
  }

  predicate IsClose(f: Frame) {
    Opcode(f) == 8
  }

  predicate AllOpen(fs: seq<Frame>) {
    forall i :: 0 <= i < |fs| ==> !IsClose(fs[i])
  }

  /** The first payload byte of a text or binary frame names its channel. */
  function Delivered(f: Frame): Streams
    requires ValidFrame(f)
  {
    var payload := Masked(f.mask, f.body);
    if !IsData(f) || payload == [] then NOTHING
    else if payload[0] == 1 then Streams(payload[1..], [], [])
    else if payload[0] == 2 then Streams([], payload[1..], [])
    else if payload[0] == 3 then Streams([], [], payload[1..])
    else NOTHING
  }

  /** The decoder of a whole byte stream: frames up to the first close frame or
      the first incomplete one. */
  function Decode(s: Bytes): Streams
    decreases |s|
  {
    match Parse(s)
    case Short => NOTHING
    case Parsed(f, size) =>
      EncodeParse(s);
      if IsClose(f) then NOTHING else Join(Delivered(f), Decode(s[size..]))
  }

  /** The loop's decision on one frame, from the first byte on the wire: opcode 8
      ends the stream, an opcode other than 1 and 2 or an empty payload is passed
      by, and the rest of a data payload goes where its first byte says. */
  lemma DecodeOnWire(s: Bytes)
    ensures Parse(s).Short? ==> Decode(s) == Streams([], [], [])
    ensures Parse(s).Parsed? && s[0] % 16 == 8 ==> Decode(s) == Streams([], [], [])
    ensures Parse(s).Parsed? && s[0] % 16 != 8 ==>
              var payload := Masked(Parse(s).frame.mask, Parse(s).frame.body);
              var told := s[0] % 16 in {1, 2} && payload != [];
              var more := Decode(s[Parse(s).size..]);
              && (!told ==> Decode(s) == more)
              && (told ==>
                    && Decode(s).out == (if payload[0] == 1 then payload[1..] else []) + more.out
                    && Decode(s).err == (if payload[0] == 2 then payload[1..] else []) + more.err
                    && Decode(s).status == (if payload[0] == 3 then payload[1..] else []) + more.status)
  {
    if Parse(s).Parsed? {
      JoinAssociates(Decode(s[Parse(s).size..]), NOTHING, NOTHING);
    }
  }

  /** The deliveries of a frame list, up to its first close frame. */
  function DeliverAll(fs: seq<Frame>): Streams
    requires AllValid(fs)
  {
    if fs == [] || IsClose(fs[0]) then NOTHING
    else Join(Delivered(fs[0]), DeliverAll(fs[1..]))
  }

  lemma JoinAssociates(a: Streams, b: Streams, c: Streams)
    ensures Join(Join(a, b), c) == Join(a, Join(b, c))
    ensures Join(NOTHING, a) == a && Join(a, NOTHING) == a
  {
    assert (a.out + b.out) + c.out == a.out + (b.out + c.out);
    assert (a.err + b.err) + c.err == a.err + (b.err + c.err);
    assert (a.status + b.status) + c.status == a.status + (b.status + c.status);
    assert [] + a.out == a.out && [] + a.err == a.err && [] + a.status == a.status;
    assert a.out + [] == a.out && a.err + [] == a.err && a.status + [] == a.status;
  }

  lemma DecodeStep(f: Frame, tail: Bytes)
    requires ValidFrame(f)
    ensures Decode(Encode(f) + tail) == if IsClose(f) then NOTHING else Join(Delivered(f), Decode(tail))
  {
    ParseEncode(f, tail);
    Appended(Encode(f), tail);
  }

  lemma EncodeAllStep(fs: seq<Frame>, tail: Bytes)
    requires AllValid(fs) && fs != []
    ensures EncodeAll(fs) + tail == Encode(fs[0]) + (EncodeAll(fs[1..]) + tail)
    ensures AllOpen(fs) <==> !IsClose(fs[0]) && AllOpen(fs[1..])
  {
    Associates(Encode(fs[0]), EncodeAll(fs[1..]), tail);
    assert fs == [fs[0]] + fs[1..];
  }

  /** Decoding the bytes of any frame list followed by any bytes delivers the
      list, and goes on into the rest unless the list closed the stream. */
  lemma {:induction false} DecodeEncoded(fs: seq<Frame>, tail: Bytes)
    requires AllValid(fs)
    ensures Decode(EncodeAll(fs) + tail)
         == if AllOpen(fs) then Join(DeliverAll(fs), Decode(tail)) else DeliverAll(fs)
  {
    if fs == [] {
      EmptyAppends(tail);
      JoinAssociates(Decode(tail), NOTHING, NOTHING);
    } else {
      EncodeAllStep(fs, tail);
      DecodeStep(fs[0], EncodeAll(fs[1..]) + tail);
      DecodeEncoded(fs[1..], tail);
      JoinAssociates(Delivered(fs[0]), DeliverAll(fs[1..]), Decode(tail));
    }
  }

  lemma PrependFrame(f: Frame, fs: seq<Frame>, tail: Bytes)
    requires ValidFrame(f) && !IsClose(f) && AllValid(fs) && AllOpen(fs)
    ensures AllValid([f] + fs) && AllOpen([f] + fs)
    ensures EncodeAll([f] + fs) + tail == Encode(f) + (EncodeAll(fs) + tail)
    ensures DeliverAll([f] + fs) == Join(Delivered(f), DeliverAll(fs))
  {
    HeadTail(f, fs);
    EncodeAllStep([f] + fs, tail);
  }

  /** The frames the decoder goes through, and the bytes it stops at. */
  function FramesIn(s: Bytes): seq<Frame>
    decreases |s|
  {
    var p := Parse(s);
    if p.Short? || IsClose(p.frame) then [] else [p.frame] + FramesIn(s[p.size..])
  }

  function StopsAt(s: Bytes): Bytes
    decreases |s|
  {
    var p := Parse(s);
    if p.Short? || IsClose(p.frame) then s else StopsAt(s[p.size..])
  }

  /** Every byte stream is whole frames without a close frame, followed by a close
      frame or by an incomplete one; the decoder delivers exactly those frames. */
  lemma {:induction false} EveryStreamIsFrames(s: Bytes)
    ensures AllValid(FramesIn(s)) && AllOpen(FramesIn(s))
    ensures s == EncodeAll(FramesIn(s)) + StopsAt(s)
    ensures forall i :: 0 <= i < |FramesIn(s)| ==> FramesIn(s)[i].first % 16 != 8
    ensures Parse(StopsAt(s)).Short? || StopsAt(s)[0] % 16 == 8
    ensures Decode(s) == DeliverAll(FramesIn(s))
    decreases |s|
  {
    var p := Parse(s);
    if p.Short? || IsClose(p.frame) {
      EmptyAppends(s);
    } else {
      var rest := s[p.size..];
      EncodeParse(s);
      EveryStreamIsFrames(rest);
      Splits(s, p.size, p.size);
      PrependFrame(p.frame, FramesIn(rest), StopsAt(rest));
    }
  }

  // ------------------------------------------------------------- channel frames

  /** What a sender of the Kubernetes channel protocol puts on the wire, in the
      framing it chose (any length form that fits, masked or not, final or not):
      a text or binary frame with data for a channel, or a frame that carries
      nothing for any (a ping, a pong, a continuation, an empty data frame). */
  datatype Item =
    | Message(channel: byte, data: Bytes, first: byte, form: LengthForm, mask: Mask)
    | Idle(frame: Frame)

  function FrameOf(m: Item): Frame {
    match m
    case Message(channel, data, first, form, mask) => Frame(first, form, mask, Masked(mask, [channel] + data))
    case Idle(frame) => frame
  }

  predicate Sendable(m: Item) {
    && ValidFrame(FrameOf(m))
    && match m
       case Message(_, _, first, _, _) => first % 16 in {1, 2}
       case Idle(f) => f.first % 16 != 8 && (f.first % 16 in {1, 2} ==> f.body == [])
  }

  predicate AllSendable(ms: seq<Item>) {
    forall i :: 0 <= i < |ms| ==> Sendable(ms[i])
  }

  function FramesOf(ms: seq<Item>): seq<Frame> {
    seq(|ms|, i requires 0 <= i < |ms| => FrameOf(ms[i]))
  }

  /** Everything sent on one channel, in order. */
  function OnChannel(ms: seq<Item>, channel: byte): Bytes {
    if ms == [] then []
    else (if ms[0].Message? && ms[0].channel == channel then ms[0].data else []) + OnChannel(ms[1..], channel)
  }

  /** What each channel carried. */
  function Sent(ms: seq<Item>): Streams {
    Streams(OnChannel(ms, 1), OnChannel(ms, 2), OnChannel(ms, 3))
  }

  lemma ItemDelivered(m: Item)
    requires Sendable(m)
    ensures !IsClose(FrameOf(m))
    ensures Delivered(FrameOf(m)) == Sent([m])
  {
    assert forall c :: OnChannel([m], c) == if m.Message? && m.channel == c then m.data else [];
    if m.Message? {
      var payload := [m.channel] + m.data;
      MaskedTwice(m.mask, payload);
      assert payload[1..] == m.data;
    }
  }

  lemma {:induction false} ItemsDelivered(ms: seq<Item>)
    requires AllSendable(ms)
    ensures AllValid(FramesOf(ms)) && AllOpen(FramesOf(ms))
    ensures DeliverAll(FramesOf(ms)) == Sent(ms)
  {
    var fs := FramesOf(ms);
    if ms != [] {
      var rest := ms[1..];
      assert Sendable(ms[0]) && AllSendable(rest);
      ItemDelivered(ms[0]);
      ItemsDelivered(rest);
      assert fs == [FrameOf(ms[0])] + FramesOf(rest);
      assert fs[1..] == FramesOf(rest);
      SentStep(ms);
    }
  }

  lemma SentStep(ms: seq<Item>)
    requires ms != []
    ensures Sent(ms) == Join(Sent([ms[0]]), Sent(ms[1..]))
  {
    OnChannelStep(ms, 1);
    OnChannelStep(ms, 2);
    OnChannelStep(ms, 3);
  }

  lemma OnChannelStep(ms: seq<Item>, channel: byte)
    requires ms != []
    ensures OnChannel(ms, channel) == OnChannel([ms[0]], channel) + OnChannel(ms[1..], channel)
  {
    assert OnChannel([ms[0]], channel)
        == if ms[0].Message? && ms[0].channel == channel then ms[0].data else [];
  }

  /** Round trip: decoding the frames of any messages, with pings and other idle
      frames anywhere among them, gives back for each of the three channels the
      concatenation of what was sent on it; bytes of a frame cut off by the end of
      the stream, or from a close frame on, add nothing. */
  lemma MessagesRoundTrip(ms: seq<Item>, tail: Bytes)
    requires AllSendable(ms)
    requires Parse(tail).Short? || tail[0] % 16 == 8
    ensures AllValid(FramesOf(ms))
    ensures Decode(EncodeAll(FramesOf(ms)) + tail)
         == Streams(OnChannel(ms, 1), OnChannel(ms, 2), OnChannel(ms, 3))
  {
    ItemsDelivered(ms);
    DecodeEncoded(FramesOf(ms), tail);
    DecodeOnWire(tail);
    JoinAssociates(DeliverAll(FramesOf(ms)), NOTHING, NOTHING);
  }

  // -------------------------------------------------------------- the handshake

  predicate At(s: Bytes, pattern: Bytes, k: int) {
    0 <= k <= |s| - |pattern| && s[k..k + |pattern|] == pattern
  }

  /** bytes.find: the first occurrence at or after k, or -1. */
  function FindFrom(s: Bytes, pattern: Bytes, k: nat): (r: int)
    ensures r == -1 || (k <= r && At(s, pattern, r))
    ensures forall j :: k <= j && (r == -1 || j < r) ==> !At(s, pattern, j)
    decreases |s| - k
  {
    if k > |s| - |pattern| then -1
    else if s[k..k + |pattern|] == pattern then k
    else FindFrom(s, pattern, k + 1)
  }

  predicate Has(s: Bytes, pattern: Bytes) {
    FindFrom(s, pattern, 0) >= 0
  }

  const CRLF: Bytes := [13, 10]
  const HEADER_END: Bytes := [13, 10, 13, 10]
  const SWITCHING: Bytes := [0x31, 0x30, 0x31]  // "101"

  /** The part before the first CRLF, or everything. */
  function FirstLine(s: Bytes): Bytes {
    var k := FindFrom(s, CRLF, 0);
    if k < 0 then s else s[..k]
  }

  datatype Outcome =
    | Done(streams: Streams)
    | Refused          // the status line lacks 101: K8sError
    | NoHeaderEnd      // the split on the blank line has no second part: IndexError

  /** What exec_pod makes of a whole response stream. */
  function Respond(s: Bytes): Outcome {
    if !Has(FirstLine(s), SWITCHING) then Refused
    else
      var k := FindFrom(s, HEADER_END, 0);
      if k < 0 then NoHeaderEnd else Done(Decode(s[k + 4..]))
  }

  /** The response, from its bytes: it is refused unless the digits 101 stand before
      the first line end; the streams are those of the bytes after the first blank
      line, and without one there is no result. */
  lemma RespondOnWire(s: Bytes)
    ensures Respond(s) != Refused
       <==> exists i :: At(s, [49, 48, 49], i) && forall j :: 0 <= j < i + 3 ==> !At(s, [13, 10], j)
    ensures Respond(s) == NoHeaderEnd ==> forall k :: !At(s, [13, 10, 13, 10], k)
    ensures Respond(s) != Refused ==>
              forall k :: At(s, [13, 10, 13, 10], k) && (forall j :: 0 <= j < k ==> !At(s, [13, 10, 13, 10], j)) ==>
                Respond(s) == Done(Decode(s[k + 4..]))
  {
    hide Decode, FindFrom;
    var line, i, n := FirstLine(s), FindFrom(FirstLine(s), SWITCHING, 0), FindFrom(s, CRLF, 0);
    assert s == line + s[|line|..];
    if i >= 0 {
      SliceOfPrefix(line, s[|line|..], i, i + 3);
      assert At(s, [49, 48, 49], i) && forall j :: 0 <= j < i + 3 ==> !At(s, [13, 10], j);
    }
    forall i | At(s, [49, 48, 49], i) && forall j :: 0 <= j < i + 3 ==> !At(s, [13, 10], j)
      ensures Respond(s) != Refused
    {
      assert i + 3 <= |line| by { assert n < 0 || !(n < i + 3); }
      SliceOfPrefix(line, s[|line|..], i, i + 3);
      assert At(line, SWITCHING, i);
    }
  }

  /** A first occurrence inside a prefix is the first occurrence. */
  lemma FindInPrefix(s: Bytes, more: Bytes, pattern: Bytes)
    requires Has(s, pattern)
    ensures FindFrom(s + more, pattern, 0) == FindFrom(s, pattern, 0)
  {
    var k, r := FindFrom(s, pattern, 0), FindFrom(s + more, pattern, 0);
    assert (s + more)[k..k + |pattern|] == s[k..k + |pattern|];
    assert At(s + more, pattern, k);
    assert 0 <= r <= k;
    assert (s + more)[r..r + |pattern|] == s[r..r + |pattern|];
    assert At(s, pattern, r);
  }

  /** Once the blank line is in the prefix, neither the status line nor the place
      where the frames start depends on what comes later. */
  lemma HeaderSettled(s: Bytes, more: Bytes)
    requires Has(s, HEADER_END)
    ensures FirstLine(s + more) == FirstLine(s)
    ensures FindFrom(s + more, HEADER_END, 0) == FindFrom(s, HEADER_END, 0)
  {
    FindInPrefix(s, more, HEADER_END);
    var k := FindFrom(s, HEADER_END, 0);
    assert s[k..k + 2] == s[k..k + 4][..2] == CRLF;
    assert At(s, CRLF, k);
    FindInPrefix(s, more, CRLF);
  }

  // ------------------------------------------------------------------ the socket

  /** The bytes a chunk list still delivers: an empty chunk is the closed peer. */
  function Flow(chunks: seq<Bytes>): Bytes {
    if chunks == [] || chunks[0] == [] then [] else chunks[0] + Flow(chunks[1..])
  }

  function Concat(parts: seq<Bytes>): Bytes {
    if parts == [] then [] else parts[0] + Concat(parts[1..])
  }

  lemma {:induction false} ConcatSnoc(parts: seq<Bytes>, part: Bytes)
    ensures Concat(parts + [part]) == Concat(parts) + part
  {
    if parts == [] {
      assert Concat([part]) == part + Concat([]) == part;
    } else {
      assert (parts + [part])[1..] == parts[1..] + [part];
      ConcatSnoc(parts[1..], part);
    }
  }

  /** Any two ways of cutting one byte stream into nonempty chunks flow alike. */
  lemma {:induction false} FlowIsConcat(chunks: seq<Bytes>)
    requires forall i :: 0 <= i < |chunks| ==> chunks[i] != []
    ensures Flow(chunks) == Concat(chunks)
  {
    if chunks != [] { FlowIsConcat(chunks[1..]); }
  }

  class Socket {
    var chunks: seq<Bytes>

    constructor (chunks: seq<Bytes>)
      ensures this.chunks == chunks
    {
      this.chunks := chunks;
    }

    ghost function Unread(): Bytes
      reads this
    {
      Flow(chunks)
    }

    predicate Ended()
      reads this
    {
      chunks == [] || chunks[0] == []
    }

    /** The next chunk; empty means the peer closed, and it stays closed. */
    method Recv() returns (c: Bytes)
      modifies this
      ensures old(Unread()) == c + Unread()
      ensures c == [] ==> Unread() == []
      ensures old(Ended()) ==> c == [] && chunks == old(chunks)
      ensures !old(Ended()) ==> c == old(chunks[0]) && chunks == old(chunks[1..])
    {
      if chunks == [] || chunks[0] == [] {
        c := [];
      } else {
        c, chunks := chunks[0], chunks[1..];
      }
    }
  }

  /** What is left of the chunks when have bytes are held and one receives only while
      they are fewer than need. */
  function Sparing(chunks: seq<Bytes>, have: nat, need: nat): seq<Bytes> {
    if have >= need || chunks == [] || chunks[0] == [] then chunks
    else Sparing(chunks[1..], have + |chunks[0]|, need)
  }

  /** So many chunks are taken that need bytes are held or the stream ended, and with
      one chunk less there are fewer. */
  lemma {:induction false} SparingMeans(chunks: seq<Bytes>, have: nat, need: nat) returns (n: nat)
    ensures n <= |chunks| && Sparing(chunks, have, need) == chunks[n..]
    ensures have + |Concat(chunks[..n])| >= need || n == |chunks| || chunks[n] == []
    ensures n > 0 ==> have + |Concat(chunks[..n - 1])| < need && chunks[n - 1] != []
  {
    if have >= need || chunks == [] || chunks[0] == [] {
      n := 0;
    } else {
      var k := SparingMeans(chunks[1..], have + |chunks[0]|, need);
      n := k + 1;
      assert chunks[..n][1..] == chunks[1..][..k];
      assert k > 0 ==> chunks[..k][1..] == chunks[1..][..k - 1];
    }
  }

  /** Receiving in two goes takes what receiving for the larger need at once takes. */
  lemma {:induction false} SparingTwice(chunks: seq<Bytes>, have: nat, first: nat, need: nat, held: nat)
    requires first <= need
    requires held + |Flow(Sparing(chunks, have, first))| == have + |Flow(chunks)|
    ensures Sparing(Sparing(chunks, have, first), held, need) == Sparing(chunks, have, need)
  {
    if !(have >= first || chunks == [] || chunks[0] == []) {
      SparingTwice(chunks[1..], have + |chunks[0]|, first, need, held);
    }
  }

  /** The repeated "receive until the buffer holds need bytes" loop: it never receives
      with enough in hand, where it might wait for bytes that are not due. */
  method Fill(sock: Socket, buf: Bytes, need: nat) returns (filled: Bytes)
    modifies sock
    ensures filled + sock.Unread() == buf + old(sock.Unread())
    ensures |filled| >= |buf|
    ensures |filled| < need ==> sock.Unread() == []
    ensures sock.chunks == Sparing(old(sock.chunks), |buf|, need)
  {
    filled := buf;
    while |filled| < need
      invariant Sparing(sock.chunks, |filled|, need) == Sparing(old(sock.chunks), |buf|, need)
      invariant |filled| >= |buf|
      invariant filled + sock.Unread() == buf + old(sock.Unread())
      decreases |sock.Unread()|
    {
      ghost var before := sock.Unread();
      var c := sock.Recv();
      if c == [] {
        break;
      }
      assert filled + before == filled + c + sock.Unread();
      filled := filled + c;
    }
  }

  datatype HeadTaken = CutHead | HeadTaken(buf: Bytes, idx: nat, length: nat, mask: Mask)

  /** The first half of a turn: the two fixed bytes, the extended length, the
      masking key. idx is where the payload starts in the buffer. */
  method TakeHead(sock: Socket, start: Bytes) returns (t: HeadTaken)
    modifies sock
    ensures var s := start + old(sock.Unread());
            match t
            case CutHead => |s| < 2 || |s| < HeadSize(s[1])
            case HeadTaken(buf, idx, length, mask) =>
              && buf + sock.Unread() == s
              && 2 <= |buf| && idx <= |buf|
              && idx == HeadSize(s[1]) && length == BodySize(s)
              && mask == MaskIn(s)
              && sock.chunks == Sparing(old(sock.chunks), |start|, idx)
  {
    ghost var s, chunks := start + sock.Unread(), sock.chunks;
    var buf := Fill(sock, start, 2);
    if |buf| < 2 {
      assert s == buf;
      return CutHead;
    }
    var second := buf[1];
    assert second == s[1];
    var idx, length := 2, LengthBits(second);
    var size := FormSize(FormOf(second));
    if FormOf(second) != LengthForm.Short {
      SparingTwice(chunks, |start|, idx, idx + size, |buf|);
      buf := Fill(sock, buf, idx + size);
      if |buf| < idx + size {
        assert s == buf;
        return CutHead;
      }
      length := BigEndian(buf[idx..idx + size]);
      assert s[2..2 + size] == buf[2..2 + size];
      idx := idx + size;
    }
    var mask := Unmasked;
    if MaskBit(second) {
      SparingTwice(chunks, |start|, idx, idx + 4, |buf|);
      buf := Fill(sock, buf, idx + 4);
      if |buf| < idx + 4 {
        assert s == buf;
        return CutHead;
      }
      mask := Key(buf[idx], buf[idx + 1], buf[idx + 2], buf[idx + 3]);
      idx := idx + 4;
    }
    return HeadTaken(buf, idx, length, mask);
  }

  /** The frame the buffer slices make is the one the parser sees in the stream. */
  lemma CutOut(s: Bytes, buf: Bytes, unread: Bytes, idx: nat, length: nat, mask: Mask)
    requires s == buf + unread && |s| >= 2
    requires idx == HeadSize(s[1]) && idx + length <= |buf| && length == BodySize(s)
    requires mask == MaskIn(s)
    ensures buf[0] == s[0]
    ensures Parse(s) == Parsed(Frame(s[0], FormOf(s[1]), mask, buf[idx..idx + length]), idx + length)
    ensures s[idx + length..] == buf[idx + length..] + unread
  {
    assert s[idx..idx + length] == buf[idx..idx + length];
  }

  datatype Taken = EndOfStream | Taken(opcode: byte, payload: Bytes, rest: Bytes)

  /** One turn of the outer loop up to the demultiplexer: read the head piece by
      piece, then the payload, then unmask. It receives no more than the frame it
      takes needs. */
  method TakeFrame(sock: Socket, start: Bytes) returns (t: Taken)
    modifies sock
    ensures var p := Parse(start + old(sock.Unread()));
            match t
            case EndOfStream => p.Short?
            case Taken(opcode, payload, rest) =>
              && p.Parsed?
              && opcode == Opcode(p.frame)
              && payload == Masked(p.frame.mask, p.frame.body)
              && rest + sock.Unread() == (start + old(sock.Unread()))[p.size..]
              && sock.chunks == Sparing(old(sock.chunks), |start|, p.size)
  {
    ghost var s, chunks := start + sock.Unread(), sock.chunks;
    var head := TakeHead(sock, start);
    if head.CutHead? {
      return EndOfStream;
    }
    var idx, length := head.idx, head.length;
    SparingTwice(chunks, |start|, idx, idx + length, |head.buf|);
    var buf := Fill(sock, head.buf, idx + length);
    if |buf| < idx + length {
      assert s == buf;
      return EndOfStream;
    }
    assert s == buf + sock.Unread();
    var payload, rest := buf[idx..idx + length], buf[idx + length..];
    CutOut(s, buf, sock.Unread(), idx, length, head.mask);
    return Taken(buf[0] % 16, Masked(head.mask, payload), rest);
  }

  /** The outer loop: whatever the chunking, the three joined strings are those of
      the whole-stream decoder. It terminates because each turn takes at least two
      of the bytes buffered or still unread. */
  method ReadFrames(sock: Socket, start: Bytes) returns (r: Streams)
    modifies sock
    ensures r == Decode(start + old(sock.Unread()))
  {
    ghost var all := start + sock.Unread();
    var buf := start;
    var outParts: seq<Bytes>, errParts: seq<Bytes>, statusParts: seq<Bytes> := [], [], [];
    ghost var got := NOTHING;
    JoinAssociates(Decode(all), NOTHING, NOTHING);
    while true
      invariant got == Streams(Concat(outParts), Concat(errParts), Concat(statusParts))
      invariant Join(got, Decode(buf + sock.Unread())) == Decode(all)
      decreases |buf| + |sock.Unread()|
    {
      ghost var s := buf + sock.Unread();
      JoinAssociates(got, NOTHING, NOTHING);
      var t := TakeFrame(sock, buf);
      if t.EndOfStream? {
        break;
      }
      ghost var f := Parse(s).frame;
      EncodeParse(s);
      buf := t.rest;
      if t.opcode == 8 {
        break;
      }
      JoinAssociates(got, Delivered(f), Decode(buf + sock.Unread()));
      JoinAssociates(got, NOTHING, NOTHING);
      got := Join(got, Delivered(f));
      if (t.opcode == 1 || t.opcode == 2) && t.payload != [] {
        var channel, data := t.payload[0], t.payload[1..];
        if channel == 1 {
          ConcatSnoc(outParts, data);
          outParts := outParts + [data];
        } else if channel == 2 {
          ConcatSnoc(errParts, data);
          errParts := errParts + [data];
        } else if channel == 3 {
          ConcatSnoc(statusParts, data);
          statusParts := statusParts + [data];
        }
      }
    }
    r := Streams(Concat(outParts), Concat(errParts), Concat(statusParts));
  }

  /** The handshake loop: receive until the blank line is in. */
  method ReadHeader(sock: Socket) returns (header: Bytes)
    modifies sock
    ensures header + sock.Unread() == old(sock.Unread())
    ensures !Has(header, HEADER_END) ==> sock.Unread() == []
  {
    header := [];
    while !Has(header, HEADER_END)
      invariant header + sock.Unread() == old(sock.Unread())
      decreases |sock.Unread()|
    {
      ghost var before := sock.Unread();
      var c := sock.Recv();
      if c == [] {
        break;
      }
      assert header + before == header + c + sock.Unread();
      header := header + c;
    }
  }

  /** The header read so far decides as the whole stream would. */
  lemma RespondSplit(header: Bytes, unread: Bytes)
    requires Has(header, HEADER_END) || unread == []
    ensures var k := FindFrom(header, HEADER_END, 0);
            Respond(header + unread)
            == if !Has(FirstLine(header), SWITCHING) then Refused
               else if k < 0 then NoHeaderEnd
               else Done(Decode(header[k + 4..] + unread))
  {
    var all, k := header + unread, FindFrom(header, HEADER_END, 0);
    if k >= 0 {
      HeaderSettled(header, unread);
      DropOfPrefix(header, unread, k + 4);
    } else {
      EmptyAppends(header);
    }
  }

  /** exec_pod from the first byte of the response: the outcome is a function of
      the concatenated bytes, so every chunking gives the same one. */
  method ExecPod(sock: Socket) returns (r: Outcome)
    modifies sock
    ensures r == Respond(old(sock.Unread()))
  {
    var header := ReadHeader(sock);
    RespondSplit(header, sock.Unread());
    if !Has(FirstLine(header), SWITCHING) {
      return Refused;
    }
    var k := FindFrom(header, HEADER_END, 0);
    if k < 0 {
      return NoHeaderEnd;
    }
    var streams := ReadFrames(sock, header[k + 4..]);
    return Done(streams);
  }

  /** Chunking independence and round trip together: a 101 response whose header
      is followed by the frames of ms and then by a close frame or a cut frame
      yields what was sent on each channel. */
  lemma ExecRoundTrip(header: Bytes, ms: seq<Item>, tail: Bytes)
    requires Has(header, HEADER_END) && FindFrom(header, HEADER_END, 0) == |header| - 4
    requires Has(FirstLine(header), SWITCHING)
    requires AllSendable(ms)
    requires Parse(tail).Short? || tail[0] % 16 == 8
    ensures AllValid(FramesOf(ms))
    ensures Respond(header + (EncodeAll(FramesOf(ms)) + tail))
         == Done(Streams(OnChannel(ms, 1), OnChannel(ms, 2), OnChannel(ms, 3)))
  {
    MessagesRoundTrip(ms, tail);
    var body := EncodeAll(FramesOf(ms)) + tail;
    hide Decode, Parse;
    RespondSplit(header, body);
    EmptyAppends(header);
    EmptyAppends(body);
  }
}
