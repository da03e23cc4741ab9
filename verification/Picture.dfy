/**
 Picture-driven packing and unpacking, shared by socket messages (hsock.c) and
 in-process messages (hmsg.c). Memory is a sequence of bytes, little-endian; an
 argument list is a sequence of typed values, one per picture element.
 */
module Picture {
  import opened Words

  type Byte = b: int | 0 <= b < 256

  // ---------------------------------------------------------------- fixed-width integers

  function LE(n: nat, v: nat): (b: seq<Byte>)
    ensures |b| == n
  {
    if n == 0 then [] else [v % 256] + LE(n - 1, v / 256)
  }

  function UnLE(b: seq<Byte>): nat {
    if b == [] then 0 else b[0] + 256 * UnLE(b[1..])
  }

  function Pow256(n: nat): (p: nat)
    ensures p >= 1
  {
    if n == 0 then 1 else 256 * Pow256(n - 1)
  }

  lemma {:induction false} LERoundTrip(n: nat, v: nat)
    requires v < Pow256(n)
    ensures UnLE(LE(n, v)) == v
  {
    if n > 0 {
      LERoundTrip(n - 1, v / 256);
      assert LE(n, v)[1..] == LE(n - 1, v / 256);
    }
  }

  lemma Pow256Values()
    ensures Pow256(2) == U16 && Pow256(4) == U32 && Pow256(8) == U64
  {
    assert Pow256(1) == 256 && Pow256(2) == U16 && Pow256(3) == 0x100_0000 && Pow256(4) == U32;
    assert Pow256(5) == 0x100_0000_0000 && Pow256(6) == 0x1_0000_0000_0000 && Pow256(7) == 0x100_0000_0000_0000;
  }

  /** The bits of a C int. */
  function IntBits(i: int): (u: nat)
    ensures u < U32
  {
    i % U32
  }

  /** The C int with these bits. */
  function BitsInt(u: nat): int {
    if u < 0x8000_0000 then u else u - U32
  }

  // ---------------------------------------------------------------- arguments

  datatype Arg =
    | Int(i: int)                 // 'i'
    | Char(c: int)                // '1', passed as int
    | Short(s: int)               // '2', passed as int
    | UInt(u: nat)                // '4'
    | ULong(l: nat)               // '8'
    | Double(d: nat)              // 'd', as its 64 bits
    | Pointer(p: nat)             // 'p'
    | Payload(data: seq<Byte>)    // 'b': an address and a size

  predicate InInt(i: int) {
    -0x8000_0000 <= i < 0x8000_0000
  }

  /** The argument is what the picture element announces, within its C type. */
  predicate Fits(c: char, a: Arg) {
    match a
    case Int(i) => c == 'i' && InInt(i)
    case Char(i) => c == '1' && InInt(i)
    case Short(i) => c == '2' && InInt(i)
    case UInt(u) => c == '4' && u < U32
    case ULong(u) => c == '8' && u < U64
    case Double(u) => c == 'd' && u < U64
    case Pointer(u) => c == 'p' && u < U64
    case Payload(data) => c == 'b' && |data| < U32
  }

  predicate Scalar(c: char) {
    c == 'i' || c == '1' || c == '2' || c == '4' || c == '8' || c == 'd' || c == 'p'
  }

  predicate Element(c: char, blocks: bool) {
    Scalar(c) || (blocks && c == 'b')
  }

  /** The picture element that announces an argument. */
  function Code(a: Arg): char {
    match a
    case Int(_) => 'i' case Char(_) => '1' case Short(_) => '2' case UInt(_) => '4'
    case ULong(_) => '8' case Double(_) => 'd' case Pointer(_) => 'p' case Payload(_) => 'b'
  }

  function Codes(args: seq<Arg>): (picture: string)
    ensures |picture| == |args|
  {
    seq(|args|, k requires 0 <= k < |args| => Code(args[k]))
  }

  /** Arguments within the range of their C types. */
  predicate InRange(args: seq<Arg>) {
    forall k :: 0 <= k < |args| ==> Fits(Code(args[k]), args[k])
  }

  lemma CodesAgree(args: seq<Arg>)
    requires InRange(args)
    ensures Agree(Codes(args), args) && WellFormed(Codes(args), true)
  {
  }

  /** Arguments agree with the picture, element by element; nothing is asked of invalid elements. */
  predicate Agree(picture: string, args: seq<Arg>) {
    |picture| == |args| && forall k :: 0 <= k < |picture| && Element(picture[k], true) ==> Fits(picture[k], args[k])
  }

  /** Every element of the picture is valid. */
  predicate WellFormed(picture: string, blocks: bool) {
    forall k :: 0 <= k < |picture| ==> Element(picture[k], blocks)
  }

  /** The pictures that the packers and unpackers accept, written out; payloads belong to sockets alone. */
  lemma AcceptedPictures(picture: string)
    ensures WellFormed(picture, false) <==> forall k :: 0 <= k < |picture| ==> picture[k] in "i1248dp"
    ensures WellFormed(picture, true) <==> forall k :: 0 <= k < |picture| ==> picture[k] in "i1248dpb"
  {
  }

  /** The arguments of each type that a picture element announces, written out. */
  lemma AcceptedArguments(v: int, data: seq<Byte>)
    ensures Fits('i', Int(v)) == Fits('1', Char(v)) == Fits('2', Short(v)) == (-0x8000_0000 <= v < 0x8000_0000)
    ensures v >= 0 ==> Fits('4', UInt(v)) == (v < 0x1_0000_0000)
    ensures v >= 0 ==>
      Fits('8', ULong(v)) == Fits('d', Double(v)) == Fits('p', Pointer(v)) == (v < 0x1_0000_0000_0000_0000)
    ensures Fits('b', Payload(data)) == (|data| < 0x1_0000_0000)
    ensures Codes([Int(v), Char(v), Short(v), Payload(data)]) == "i12b"
    ensures v >= 0 ==> Codes([UInt(v), ULong(v), Double(v), Pointer(v)]) == "48dp"
  {
  }

  /** Without payloads, arguments in range make a picture that both kinds of message accept. */
  lemma ScalarCodes(args: seq<Arg>)
    requires InRange(args) && forall k :: 0 <= k < |args| ==> !args[k].Payload?
    ensures Agree(Codes(args), args) && WellFormed(Codes(args), false)
  {
  }

  /** Bytes that one argument occupies in the picture frame. */
  function Pack(a: Arg): seq<Byte> {
    match a
    case Int(i) => LE(4, IntBits(i))
    case Char(i) => LE(4, IntBits(i))
    case Short(i) => LE(4, IntBits(i))
    case UInt(u) => LE(4, u)
    case ULong(u) => LE(8, u)
    case Double(u) => LE(8, u)
    case Pointer(u) => LE(8, u)
    case Payload(_) => []
  }

  function PackAll(args: seq<Arg>): seq<Byte> {
    if args == [] then [] else Pack(args[0]) + PackAll(args[1..])
  }

  /** Widths of the elements on the wire, and their byte order, written out. */
  lemma PackedBytes(i: int, u: nat, data: seq<Byte>)
    ensures |Pack(Int(i))| == |Pack(Char(i))| == |Pack(Short(i))| == |Pack(UInt(u))| == 4
    ensures |Pack(ULong(u))| == |Pack(Double(u))| == |Pack(Pointer(u))| == 8 && Pack(Payload(data)) == []
    ensures Pack(UInt(u)) == [u % 256, u / 256 % 256, u / 256 / 256 % 256, u / 256 / 256 / 256 % 256]
    ensures Pack(ULong(u))[..4] == Pack(UInt(u)) && Pack(ULong(u)) == Pack(Double(u)) == Pack(Pointer(u))
    ensures Pack(Int(i)) == Pack(Char(i)) == Pack(Short(i)) == Pack(UInt(i % 0x1_0000_0000))
  {
    FourBytes(u);
  }

  lemma FourBytes(u: nat)
    ensures LE(4, u) == [u % 256, u / 256 % 256, u / 256 / 256 % 256, u / 256 / 256 / 256 % 256] == LE(8, u)[..4]
  {
    var a, b, c := u / 256, u / 256 / 256, u / 256 / 256 / 256;
    assert LE(1, c) == [c % 256] + LE(0, c / 256) && LE(2, b) == [b % 256] + LE(1, c);
    assert LE(3, a) == [a % 256] + LE(2, b);
    assert LE(5, c) == [c % 256] + LE(4, c / 256) && LE(6, b) == [b % 256] + LE(5, c);
    assert LE(7, a) == [a % 256] + LE(6, b);
    assert LE(4, u) == [u % 256] + LE(3, a) && LE(8, u) == [u % 256] + LE(7, a);
  }

  /** The payload frames, in order. */
  function Payloads(args: seq<Arg>): seq<seq<Byte>> {
    if args == [] then [] else (if args[0].Payload? then [args[0].data] else []) + Payloads(args[1..])
  }

  /** What a target receives for an argument: '1' and '2' keep the low 8 and 16 bits. */
  datatype Out = Untouched | Number(v: int) | Block(data: seq<Byte>) | Sender(node: nat, mailbox: nat)

  function Received(a: Arg): Out {
    match a
    case Int(i) => Number(i)
    case Char(i) => Number(i % U8)
    case Short(i) => Number(i % U16)
    case UInt(u) => Number(u)
    case ULong(u) => Number(u)
    case Double(u) => Number(u)
    case Pointer(u) => Number(u)
    case Payload(data) => Block(data)
  }

  function ReceivedAll(args: seq<Arg>): (outs: seq<Out>)
    ensures |outs| == |args|
    ensures forall k :: 0 <= k < |args| ==> outs[k] == Received(args[k])
  {
    if args == [] then [] else [Received(args[0])] + ReceivedAll(args[1..])
  }

  // ---------------------------------------------------------------- unpacking

  /** A bad picture element ends the process; an overrun reads outside the message. */
  datatype Outcome<+T> = Done(value: T) | BadPicture | Overrun

  function Width(c: char): nat {
    if c == '8' || c == 'd' || c == 'p' then 8 else 4
  }

  /** The value stored through a target of this element. */
  function Load(c: char, b: seq<Byte>): Out {
    var u := UnLE(b);
    if c == 'i' then Number(BitsInt(u))
    else if c == '1' then Number(u % U8)
    else if c == '2' then Number(u % U16)
    else Number(u)
  }

  function Cons(o: Out, r: Outcome<seq<Out>>): Outcome<seq<Out>> {
    if r.Done? then Done([o] + r.value) else r
  }

  /**
   Unpacking from position pos of the body and from payload frame fid on. A NULL
   target (false) is skipped without advancing.
   */
  function Unpack(body: seq<Byte>, frames: seq<seq<Byte>>, picture: string, targets: seq<bool>, blocks: bool,
                  pos: nat, fid: nat): Outcome<seq<Out>>
    requires |targets| == |picture|
  {
    if picture == "" then Done([])
    else
      var c, rest, more := picture[0], picture[1..], targets[1..];
      if !Element(c, blocks) then BadPicture
      else if !targets[0] then Cons(Untouched, Unpack(body, frames, rest, more, blocks, pos, fid))
      else if c == 'b' then
        if fid >= |frames| then Overrun
        else Cons(Block(frames[fid]), Unpack(body, frames, rest, more, blocks, pos, fid + 1))
      else if pos + Width(c) > |body| then Overrun
      else Cons(Load(c, body[pos..pos + Width(c)]), Unpack(body, frames, rest, more, blocks, pos + Width(c), fid))
  }

  /** The outcome when `outs` were delivered before. */
  function Prepend(outs: seq<Out>, r: Outcome<seq<Out>>): Outcome<seq<Out>> {
    if r.Done? then Done(outs + r.value) else r
  }

  lemma PrependCons(outs: seq<Out>, o: Out, r: Outcome<seq<Out>>)
    ensures Prepend(outs, Cons(o, r)) == Prepend(outs + [o], r)
  {
    if r.Done? { assert outs + ([o] + r.value) == outs + [o] + r.value; }
  }

  lemma PrependNone(r: Outcome<seq<Out>>)
    ensures Prepend([], r) == r
  {
    if r.Done? { assert [] + r.value == r.value; }
  }

  predicate AllWanted(targets: seq<bool>) {
    forall k :: 0 <= k < |targets| ==> targets[k]
  }

  lemma LoadPacked(c: char, a: Arg)
    requires Fits(c, a) && c != 'b'
    ensures |Pack(a)| == Width(c) && Load(c, Pack(a)) == Received(a)
  {
    Pow256Values();
    match a
    case Int(i) => LERoundTrip(4, IntBits(i));
    case Char(i) => LERoundTrip(4, IntBits(i)); LowByte(i);
    case Short(i) => LERoundTrip(4, IntBits(i)); LowWord(i);
    case UInt(u) => LERoundTrip(4, u);
    case ULong(u) => LERoundTrip(8, u);
    case Double(u) => LERoundTrip(8, u);
    case Pointer(u) => LERoundTrip(8, u);
  }

  lemma LowByte(i: int)
    ensures i % 0x1_0000_0000 % 0x100 == i % 0x100
  {
  }

  lemma LowWord(i: int)
    ensures i % 0x1_0000_0000 % 0x1_0000 == i % 0x1_0000
  {
  }

  /** What each target receives, written out. */
  ghost predicate Delivered(args: seq<Arg>, outs: seq<Out>) {
    && |outs| == |args|
    && (forall k :: 0 <= k < |args| && args[k].Int? ==> outs[k] == Number(args[k].i))
    && (forall k :: 0 <= k < |args| && args[k].Char? ==> outs[k] == Number(args[k].c % 256))
    && (forall k :: 0 <= k < |args| && args[k].Short? ==> outs[k] == Number(args[k].s % 65536))
    && (forall k :: 0 <= k < |args| && args[k].UInt? ==> outs[k] == Number(args[k].u))
    && (forall k :: 0 <= k < |args| && args[k].ULong? ==> outs[k] == Number(args[k].l))
    && (forall k :: 0 <= k < |args| && args[k].Double? ==> outs[k] == Number(args[k].d))
    && (forall k :: 0 <= k < |args| && args[k].Pointer? ==> outs[k] == Number(args[k].p))
    && (forall k :: 0 <= k < |args| && args[k].Payload? ==> outs[k] == Block(args[k].data))
  }

  /** The values received are exactly these. */
  lemma ReceivedValues(args: seq<Arg>, outs: seq<Out>)
    ensures outs == ReceivedAll(args) <==> Delivered(args, outs)
  {
    if Delivered(args, outs) {
      forall k | 0 <= k < |args| ensures outs[k] == Received(args[k]) {
      }
    }
  }

  /** One of each, with values that do not fit their targets. */
  lemma ReceivedExamples(data: seq<Byte>)
    ensures ReceivedAll([Int(-1), Char(300), Short(70000), UInt(7), ULong(8), Double(9), Pointer(10), Payload(data)])
         == [Number(-1), Number(44), Number(4464), Number(7), Number(8), Number(9), Number(10), Block(data)]
  {
  }

  /** Unpacking what was packed yields every argument, whatever follows the packed bytes. */
  lemma {:induction false} UnpackPacked(body: seq<Byte>, frames: seq<seq<Byte>>, picture: string, targets: seq<bool>,
                                        blocks: bool,
                                        pos: nat, fid: nat, args: seq<Arg>)
    requires Agree(picture, args) && WellFormed(picture, blocks) && |targets| == |picture| && AllWanted(targets)
    requires pos <= |body| && PackAll(args) <= body[pos..]
    requires fid <= |frames| && Payloads(args) <= frames[fid..]
    ensures Unpack(body, frames, picture, targets, blocks, pos, fid) == Done(ReceivedAll(args))
    ensures Delivered(args, Unpack(body, frames, picture, targets, blocks, pos, fid).value)
    decreases |picture|
  {
    ReceivedValues(args, ReceivedAll(args));
    hide Delivered;
    if picture != "" {
      var c, a, p := picture[0], args[0], Pack(args[0]);
      assert Fits(c, a);
      assert Agree(picture[1..], args[1..]) && WellFormed(picture[1..], blocks) && AllWanted(targets[1..]);
      if c == 'b' {
        assert frames[fid] == frames[fid..][0] == a.data;
        assert frames[fid + 1..] == frames[fid..][1..] && Payloads(args)[1..] == Payloads(args[1..]);
        assert PackAll(args) == PackAll(args[1..]);
        UnpackPacked(body, frames, picture[1..], targets[1..], blocks, pos, fid + 1, args[1..]);
      } else {
        LoadPacked(c, a);
        PrefixParts(p, PackAll(args[1..]), body, pos);
        UnpackPacked(body, frames, picture[1..], targets[1..], blocks, pos + |p|, fid, args[1..]);
      }
    }
  }

  /** An invalid element is never passed over, and nothing else is taken for one. */
  lemma {:induction false} UnpackRejects(body: seq<Byte>, frames: seq<seq<Byte>>, picture: string, targets: seq<bool>,
                                         blocks: bool, pos: nat, fid: nat)
    requires |targets| == |picture|
    ensures Unpack(body, frames, picture, targets, blocks, pos, fid).Done? ==> WellFormed(picture, blocks)
    ensures Unpack(body, frames, picture, targets, blocks, pos, fid).BadPicture? ==> !WellFormed(picture, blocks)
    decreases |picture|
  {
    if picture != "" {
      var c := picture[0];
      UnpackRejects(body, frames, picture[1..], targets[1..], blocks, pos, fid);
      UnpackRejects(body, frames, picture[1..], targets[1..], blocks, pos, fid + 1);
      UnpackRejects(body, frames, picture[1..], targets[1..], blocks, pos + Width(c), fid);
      assert WellFormed(picture, blocks) <==> Element(c, blocks) && WellFormed(picture[1..], blocks) by {
        assert forall k :: 0 < k < |picture| ==> picture[k] == picture[1..][k - 1];
      }
      hide WellFormed;
    }
  }

  lemma PrefixParts(p: seq<Byte>, q: seq<Byte>, body: seq<Byte>, pos: nat)
    requires pos <= |body| && p + q <= body[pos..]
    ensures pos + |p| <= |body| && body[pos..pos + |p|] == p && q <= body[pos + |p|..]
  {
    assert body[pos..pos + |p|] == body[pos..][..|p|] == (p + q)[..|p|];
    assert body[pos + |p|..] == body[pos..][|p|..];
    assert q == (p + q)[|p|..];
  }

  lemma PackCons(args: seq<Arg>)
    ensures PackAll(args) == if args == [] then [] else Pack(args[0]) + PackAll(args[1..])
    ensures Payloads(args) == if args == [] then [] else
      (if args[0].Payload? then [args[0].data] else []) + Payloads(args[1..])
  {
  }

  /** A prefix of the arguments packs to a prefix of the bytes and of the payload frames. */
  lemma {:induction false} PackPrefix(args: seq<Arg>, n: nat)
    requires n <= |args|
    ensures PackAll(args[..n]) <= PackAll(args) && Payloads(args[..n]) <= Payloads(args)
  {
    hide PackAll, Payloads, Pack;
    PackCons(args[..n]);
    PackCons(args);
    if n > 0 {
      PackPrefix(args[1..], n - 1);
      assert args[..n][1..] == args[1..][..n - 1];
    }
  }

  lemma {:induction false} PackSnoc(args: seq<Arg>, a: Arg)
    ensures PackAll(args + [a]) == PackAll(args) + Pack(a)
    ensures Payloads(args + [a]) == Payloads(args) + if a.Payload? then [a.data] else []
  {
    hide PackAll, Payloads, Pack;
    var all := args + [a];
    PackCons(all);
    PackCons(args);
    if args == [] {
      assert all[1..] == [];
      PackCons([]);
    } else {
      PackSnoc(args[1..], a);
      assert all[0] == args[0] && all[1..] == args[1..] + [a];
    }
  }

  /** One more element packed. */
  lemma PackStep(picture: string, args: seq<Arg>, k: nat, blocks: bool)
    requires Agree(picture, args) && k < |picture| && Element(picture[k], blocks) && WellFormed(picture[..k], blocks)
    ensures PackAll(args[..k + 1]) == PackAll(args[..k]) + Pack(args[k]) && |Pack(args[k])| <= 8
    ensures Payloads(args[..k + 1]) == Payloads(args[..k]) + if args[k].Payload? then [args[k].data] else []
    ensures |PackAll(args[..k + 1])| <= |PackAll(args)| && |Payloads(args[..k + 1])| <= |Payloads(args)|
    ensures WellFormed(picture[..k + 1], blocks)
  {
    hide PackAll, Payloads, Pack;
    assert args[..k + 1] == args[..k] + [args[k]];
    PackSnoc(args[..k], args[k]);
    PackPrefix(args, k + 1);
    PackSize(args[k]);
  }

  lemma PackSize(a: Arg)
    ensures |Pack(a)| <= 8
  {
  }

  lemma {:induction false} PackBound(args: seq<Arg>)
    ensures |PackAll(args)| <= 8 * |args|
  {
    if args != [] { PackBound(args[1..]); }
  }

  /** A run of stores into a buffer. */
  method Store(buffer: array<Byte>, pos: nat, bytes: seq<Byte>)
    requires pos + |bytes| <= buffer.Length
    modifies buffer
    ensures buffer[..] == old(buffer[..pos]) + bytes + old(buffer[pos + |bytes|..])
  {
    var i := 0;
    while i < |bytes|
      invariant i <= |bytes|
      invariant buffer[..pos] == old(buffer[..pos])
      invariant buffer[pos..pos + i] == bytes[..i]
      invariant buffer[pos + i..] == old(buffer[pos + i..])
    {
      buffer[pos + i] := bytes[i];
      i := i + 1;
    }
    assert bytes[..i] == bytes;
    assert buffer[..] == buffer[..pos] + buffer[pos..pos + i] + buffer[pos + i..];
  }

  /** A NULL target leaves the position where it was: the next target gets the skipped element's bytes. */
  lemma NullTargetShifts(x: int, y: int, picture: string, targets: seq<bool>)
    requires InInt(x) && InInt(y) && picture == "ii" && targets == [false, true]
    ensures Unpack(PackAll([Int(x), Int(y)]), [], picture, targets, true, 0, 0) == Done([Untouched, Number(x)])
  {
    var body, args := PackAll([Int(x), Int(y)]), [Int(x), Int(y)];
    PackPrefix(args, 1);
    assert args[..1] == [Int(x)];
    UnpackPacked(body, [], picture[1..], targets[1..], true, 0, 0, [Int(x)]);
    assert [Untouched] + ReceivedAll([Int(x)]) == [Untouched, Number(x)];
  }

  /** Reading a prefix of the picture, with no NULL target in it, yields the matching prefix of the values. */
  lemma UnpackPrefix(body: seq<Byte>, frames: seq<seq<Byte>>, picture: string, targets: seq<bool>, blocks: bool,
                     args: seq<Arg>, n: nat)
    requires Agree(picture, args) && WellFormed(picture, blocks) && n <= |picture| && |targets| == n
    requires AllWanted(targets)
    requires PackAll(args) <= body && Payloads(args) <= frames
    ensures Unpack(body, frames, picture[..n], targets, blocks, 0, 0) == Done(ReceivedAll(args[..n]))
    ensures ReceivedAll(args[..n]) == ReceivedAll(args)[..n]
  {
    PackPrefix(args, n);
    assert body[0..] == body && frames[0..] == frames;
    UnpackPacked(body, frames, picture[..n], targets, blocks, 0, 0, args[..n]);
  }
}
