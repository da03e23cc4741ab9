/**
 Socket messages on the wire: `serialize`, the request header stamped over the
 front of the buffer, the size table at its end, and `deserialize`.
 */
module SockCodec {
  import opened Words
  import opened Picture
  import opened NullTargets

  /** picture_transmission_request_packet_t: five fields at multiples of 8; its padding bytes are zero here. */
  datatype Header = Header(payloadCount: nat, destMailbox: nat, srcNode: nat, atomicObj: nat, srcMailbox: nat)

  const HEADER: nat := 40
  const MAX_MEDIUM: nat := 4000

  predicate HeaderFits(h: Header) {
    h.payloadCount < U16 && h.srcNode < U16 && h.destMailbox < U64 && h.atomicObj < U64 && h.srcMailbox < U64
  }

  function Stamp(h: Header): (b: seq<Byte>)
    ensures |b| == HEADER
  {
    LE(8, h.payloadCount) + LE(8, h.destMailbox) + LE(8, h.srcNode) + LE(8, h.atomicObj) + LE(8, h.srcMailbox)
  }

  /** The handler's view of the front of a received buffer; the two 16-bit fields use only their own bytes. */
  function Parse(b: seq<Byte>): Header
    requires |b| >= HEADER
  {
    Header(UnLE(b[0..2]), UnLE(b[8..16]), UnLE(b[16..18]), UnLE(b[24..32]), UnLE(b[32..40]))
  }

  /** The size table: one 64-bit size for each payload. */
  function SizeTable(frames: seq<seq<Byte>>): (b: seq<Byte>)
    ensures |b| == 8 * |frames|
  {
    if frames == [] then [] else LE(8, |frames[0]|) + SizeTable(frames[1..])
  }

  /** The buffer that is sent: `picsz` bytes. */
  function Packet(h: Header, args: seq<Arg>): seq<Byte> {
    Stamp(h) + (PackAll(args) + SizeTable(Payloads(args)))
  }

  function PacketSize(args: seq<Arg>): nat {
    HEADER + |PackAll(args)| + 8 * |Payloads(args)|
  }

  /** The buffer and its parts in bytes, and the places of the header fields, written out. */
  lemma PacketLayout(h: Header, args: seq<Arg>)
    ensures MAX_MEDIUM == 4000
    ensures |Packet(h, args)| == PacketSize(args) == 40 + |PackAll(args)| + 8 * |Payloads(args)|
    ensures var b := Packet(h, args);
      && b[0..8] == LE(8, h.payloadCount) && b[8..16] == LE(8, h.destMailbox) && b[16..24] == LE(8, h.srcNode)
      && b[24..32] == LE(8, h.atomicObj) && b[32..40] == LE(8, h.srcMailbox)
      && b[40..40 + |PackAll(args)|] == PackAll(args)
  {
    hide LE, PackAll, Payloads;
  }

  /** The i-th of count sizes at the tail of a received buffer. */
  function TailSize(b: seq<Byte>, count: nat, i: nat): nat
    requires i < count && 8 * count <= |b|
  {
    UnLE(b[|b| - 8 * count + 8 * i..|b| - 8 * count + 8 * i + 8])
  }

  // ---------------------------------------------------------------- sending

  lemma StoreSlices(before: seq<Byte>, pos: nat, bytes: seq<Byte>, after: seq<Byte>)
    requires HEADER <= pos && pos + |bytes| <= |before| && after == before[..pos] + bytes + before[pos + |bytes|..]
    ensures |after| == |before| && after[..HEADER] == before[..HEADER]
    ensures after[HEADER..pos + |bytes|] == before[HEADER..pos] + bytes
  {
  }

  /**
   serialize: the scalars behind the header region, then the size table; the payload
   addresses are kept aside. An invalid picture element ends the process (ok == false).
   */
  method Serialize(buffer: array<Byte>, picture: string,
                   args: seq<Arg>) returns (ok: bool, psz: nat, frames: seq<seq<Byte>>)
    requires buffer.Length == MAX_MEDIUM && Agree(picture, args) && PacketSize(args) <= MAX_MEDIUM
    modifies buffer
    ensures ok == WellFormed(picture, true)
    ensures ok <==> forall k :: 0 <= k < |picture| ==> picture[k] in "i1248dpb"
    ensures ok ==> psz == PacketSize(args) && frames == Payloads(args)
    ensures ok ==> buffer[HEADER..psz] == PackAll(args) + SizeTable(Payloads(args))
    ensures buffer[..HEADER] == old(buffer[..HEADER])
  {
    ok, psz, frames := SerializeArgs(buffer, picture, args);
    if !ok { return; }
    ghost var base := psz;
    var i := 0;
    while i < |frames|
      invariant i <= |frames| && psz == base + 8 * i
      invariant buffer[HEADER..psz] == PackAll(args) + SizeTable(frames[..i])
      invariant buffer[..HEADER] == old(buffer[..HEADER])
    {
      AppendSize(buffer, psz, frames, i, PackAll(args));
      psz := psz + 8;
      i := i + 1;
    }
    assert frames[..i] == frames;
  }

  /** The switch loop of serialize. */
  method SerializeArgs(buffer: array<Byte>, picture: string,
                       args: seq<Arg>) returns (ok: bool, psz: nat, frames: seq<seq<Byte>>)
    requires buffer.Length == MAX_MEDIUM && Agree(picture, args) && PacketSize(args) <= MAX_MEDIUM
    modifies buffer
    ensures ok == WellFormed(picture, true)
    ensures ok ==> psz == HEADER + |PackAll(args)| && frames == Payloads(args) && buffer[HEADER..psz] == PackAll(args)
    ensures buffer[..HEADER] == old(buffer[..HEADER])
  {
    ok, psz, frames := true, HEADER, [];
    var k := 0;
    while k < |picture|
      invariant k <= |picture| && WellFormed(picture[..k], true)
      invariant frames == Payloads(args[..k]) && psz == HEADER + |PackAll(args[..k])| <= MAX_MEDIUM
      invariant buffer[HEADER..psz] == PackAll(args[..k])
      invariant buffer[..HEADER] == old(buffer[..HEADER])
    {
      if !Element(picture[k], true) { return false, psz, frames; }
      PackStep(picture, args, k, true);
      if args[k].Payload? {
        frames := frames + [args[k].data];
      } else {
        Append(buffer, psz, Pack(args[k]));
        psz := psz + |Pack(args[k])|;
      }
      k := k + 1;
    }
    assert args[..k] == args && picture[..k] == picture;
  }

  /** One typed store at position psz. */
  method Append(buffer: array<Byte>, psz: nat, bytes: seq<Byte>)
    requires HEADER <= psz && psz + |bytes| <= buffer.Length
    modifies buffer
    ensures buffer[HEADER..psz + |bytes|] == old(buffer[HEADER..psz]) + bytes
    ensures buffer[..HEADER] == old(buffer[..HEADER])
  {
    ghost var before := buffer[..];
    Store(buffer, psz, bytes);
    StoreSlices(before, psz, bytes, buffer[..]);
  }

  method AppendSize(buffer: array<Byte>, psz: nat, frames: seq<seq<Byte>>, i: nat, ghost scalars: seq<Byte>)
    requires i < |frames| && HEADER <= psz && psz + 8 <= buffer.Length
    requires buffer[HEADER..psz] == scalars + SizeTable(frames[..i])
    modifies buffer
    ensures buffer[HEADER..psz + 8] == scalars + SizeTable(frames[..i + 1])
    ensures buffer[..HEADER] == old(buffer[..HEADER])
  {
    Append(buffer, psz, LE(8, |frames[i]|));
    SizeSnoc(frames[..i], frames[i]);
    assert frames[..i + 1] == frames[..i] + [frames[i]];
  }

  lemma {:induction false} SizeSnoc(frames: seq<seq<Byte>>, f: seq<Byte>)
    ensures SizeTable(frames + [f]) == SizeTable(frames) + LE(8, |f|)
  {
    hide LE;
    var all := frames + [f];
    if frames == [] {
      assert all[1..] == [] && SizeTable([]) == [];
    } else {
      SizeSnoc(frames[1..], f);
      assert all[0] == frames[0] && all[1..] == frames[1..] + [f];
    }
  }

  /** The memcpy at the head of `flood` completes the packet. */
  method StampBuffer(buffer: array<Byte>, h: Header, psz: nat, ghost args: seq<Arg>)
    requires buffer.Length == MAX_MEDIUM && psz == PacketSize(args) <= MAX_MEDIUM
    requires buffer[HEADER..psz] == PackAll(args) + SizeTable(Payloads(args))
    modifies buffer
    ensures buffer[..psz] == Packet(h, args)
  {
    ghost var before := buffer[..];
    Store(buffer, 0, Stamp(h));
    assert before[..0] + Stamp(h) == Stamp(h);
    assert buffer[..] == Stamp(h) + before[HEADER..];
    assert before[HEADER..][..psz - HEADER] == before[HEADER..psz];
    assert buffer[..psz] == (Stamp(h) + before[HEADER..])[..psz] == Stamp(h) + before[HEADER..psz];
  }

  // ---------------------------------------------------------------- receiving

  lemma {:induction false} LowBytes(n: nat, m: nat, v: nat)
    requires m <= n
    ensures LE(n, v)[..m] == LE(m, v)
  {
    if m > 0 { LowBytes(n - 1, m - 1, v / 256); }
  }

  /** The handler reads back every field of the header. */
  lemma HeaderRoundTrip(h: Header, rest: seq<Byte>)
    requires HeaderFits(h)
    ensures Parse(Stamp(h) + rest) == h
  {
    Pow256Values();
    var b := Stamp(h) + rest;
    LowBytes(8, 2, h.payloadCount);
    LowBytes(8, 2, h.srcNode);
    assert b[0..2] == LE(8, h.payloadCount)[..2];
    assert b[8..16] == LE(8, h.destMailbox);
    assert b[16..18] == LE(8, h.srcNode)[..2];
    assert b[24..32] == LE(8, h.atomicObj);
    assert b[32..40] == LE(8, h.srcMailbox);
    LERoundTrip(2, h.payloadCount);
    LERoundTrip(8, h.destMailbox);
    LERoundTrip(2, h.srcNode);
    LERoundTrip(8, h.atomicObj);
    LERoundTrip(8, h.srcMailbox);
  }

  lemma {:induction false} SizeAt(frames: seq<seq<Byte>>, i: nat)
    requires i < |frames|
    ensures SizeTable(frames)[8 * i..8 * i + 8] == LE(8, |frames[i]|)
  {
    if i > 0 {
      SizeAt(frames[1..], i - 1);
      var t := SizeTable(frames[1..]);
      assert SizeTable(frames)[8 * i..8 * i + 8] == t[8 * (i - 1)..8 * (i - 1) + 8];
    }
  }

  /** The handler recomputes every payload size from the tail of the packet. */
  lemma TailSizesRoundTrip(h: Header, args: seq<Arg>, i: nat)
    requires i < |Payloads(args)| && |Payloads(args)[i]| < U64
    ensures 8 * |Payloads(args)| <= |Packet(h, args)|
    ensures TailSize(Packet(h, args), |Payloads(args)|, i) == |Payloads(args)[i]|
  {
    hide LE, UnLE, PackAll, Payloads, SizeTable;
    var fs := Payloads(args);
    var front := Stamp(h) + PackAll(args);
    assert Packet(h, args) == front + SizeTable(fs);
    SizeAt(fs, i);
    MiddleSlice(front, SizeTable(fs), 8 * i);
    Pow256Values();
    LERoundTrip(8, |fs[i]|);
  }

  lemma MiddleSlice(a: seq<Byte>, b: seq<Byte>, i: nat)
    requires i + 8 <= |b|
    ensures (a + b)[|a| + i..|a| + i + 8] == b[i..i + 8]
  {
  }

  /** What deserialize delivers from a frame array, whose frame 0 is the packet. */
  function Receive(frames: seq<seq<Byte>>, picture: string, targets: seq<bool>): Outcome<seq<Out>>
    requires |frames| >= 1 && |frames[0]| >= HEADER && |targets| == |picture|
  {
    var body := frames[0][HEADER..];
    if picture != "" && picture[0] == 's' then
      var h := Parse(frames[0]);
      Cons(if targets[0] then Sender(h.srcNode, h.srcMailbox) else Untouched,
           Unpack(body, frames[1..], picture[1..], targets[1..], true, 0, 0))
    else Unpack(body, frames[1..], picture, targets, true, 0, 0)
  }

  /** deserialize; the process exit and reads outside the message are results here. */
  method Deserialize(frames: seq<seq<Byte>>, picture: string, targets: seq<bool>) returns (r: Outcome<seq<Out>>)
    requires |frames| >= 1 && |frames[0]| >= HEADER && |targets| == |picture|
    ensures r == Receive(frames, picture, targets)
  {
    var outs: seq<Out> := [];
    var body := frames[0][HEADER..];
    var k: nat, ppos: nat, fid: nat := 0, 0, 0;
    assert picture[0..] == picture && targets[0..] == targets;
    if |picture| > 0 && picture[0] == 's' {
      var h := Parse(frames[0]);
      outs := [if targets[0] then Sender(h.srcNode, h.srcMailbox) else Untouched];
      k := 1;
      PrependCons([], outs[0], Unpack(body, frames[1..], picture[1..], targets[1..], true, 0, 0));
      assert [] + outs == outs;
    }
    PrependNone(Receive(frames, picture, targets));
    while k < |picture|
      invariant k <= |picture|
      invariant Prepend(outs, Unpack(body, frames[1..], picture[k..], targets[k..], true, ppos, fid))
        == Receive(frames, picture, targets)
    {
      var c := picture[k];
      ghost var rest, more := picture[k..], targets[k..];
      assert rest[1..] == picture[k + 1..] && more[1..] == targets[k + 1..];
      if !Element(c, true) { return BadPicture; }
      var o := Untouched;
      if targets[k] && c == 'b' {
        if fid >= |frames| - 1 { return Overrun; }
        o := Block(frames[1..][fid]);
        fid := fid + 1;
      } else if targets[k] {
        if ppos + Width(c) > |body| { return Overrun; }
        o := Load(c, body[ppos..ppos + Width(c)]);
        ppos := ppos + Width(c);
      }
      PrependCons(outs, o, Unpack(body, frames[1..], picture[k + 1..], targets[k + 1..], true, ppos, fid));
      outs := outs + [o];
      k := k + 1;
    }
    assert outs + [] == outs;
    return Done(outs);
  }

  /** The stream of payload bytes, cut at the sizes from i on that the packet's tail announces. */
  function Cut(packet: seq<Byte>, count: nat, i: nat, stream: seq<Byte>): seq<seq<Byte>>
    requires i <= count && 8 * count <= |packet|
    decreases count - i
  {
    if i == count then []
    else
      var n := TailSize(packet, count, i);
      if n > |stream| then [stream] else [stream[..n]] + Cut(packet, count, i + 1, stream[n..])
  }

  function Joined(frames: seq<seq<Byte>>): seq<Byte> {
    if frames == [] then [] else frames[0] + Joined(frames[1..])
  }

  lemma {:induction false} CutPayloads(h: Header, args: seq<Arg>, i: nat)
    requires i <= |Payloads(args)| && forall k :: 0 <= k < |Payloads(args)| ==> |Payloads(args)[k]| < U64
    ensures 8 * |Payloads(args)| <= |Packet(h, args)|
    ensures Cut(Packet(h, args), |Payloads(args)|, i, Joined(Payloads(args)[i..])) == Payloads(args)[i..]
    decreases |Payloads(args)| - i
  {
    hide Packet, TailSize, Payloads;
    var fs := Payloads(args);
    PacketHoldsTable(h, args);
    if i < |fs| {
      TailSizesRoundTrip(h, args, i);
      CutPayloads(h, args, i + 1);
      assert fs[i..][0] == fs[i] && fs[i..][1..] == fs[i + 1..];
      var stream := Joined(fs[i..]);
      assert stream == fs[i] + Joined(fs[i + 1..]);
      assert stream[..|fs[i]|] == fs[i] && stream[|fs[i]|..] == Joined(fs[i + 1..]);
    }
  }

  lemma PacketHoldsTable(h: Header, args: seq<Arg>)
    ensures 8 * |Payloads(args)| <= |Packet(h, args)| && HEADER <= |Packet(h, args)|
  {
  }

  lemma {:induction false} PayloadsSmall(picture: string, args: seq<Arg>)
    requires Agree(picture, args) && WellFormed(picture, true)
    ensures forall k :: 0 <= k < |Payloads(args)| ==> |Payloads(args)[k]| < U32
  {
    if args != [] {
      assert Fits(picture[0], args[0]);
      PayloadsSmall(picture[1..], args[1..]);
    }
  }

  /** The frame array of a packet whose payload bytes arrived as one stream; its sizes come from the packet alone. */
  function Rebuilt(packet: seq<Byte>, stream: seq<Byte>): seq<seq<Byte>>
    requires |packet| >= HEADER && 8 * Parse(packet).payloadCount <= |packet|
  {
    [packet] + Cut(packet, Parse(packet).payloadCount, 0, stream)
  }

  /** The array rebuilt from the packet and the bare payload bytes is the packet and the payloads. */
  lemma RebuiltFrames(h: Header, picture: string, args: seq<Arg>)
    requires HeaderFits(h) && h.payloadCount == |Payloads(args)| && Agree(picture, args) && WellFormed(picture, true)
    ensures |Packet(h, args)| >= HEADER && 8 * Parse(Packet(h, args)).payloadCount <= |Packet(h, args)|
    ensures Rebuilt(Packet(h, args), Joined(Payloads(args))) == [Packet(h, args)] + Payloads(args)
  {
    hide Parse, Payloads;
    PacketHoldsTable(h, args);
    HeaderRoundTrip(h, PackAll(args) + SizeTable(Payloads(args)));
    PayloadsSmall(picture, args);
    CutPayloads(h, args, 0);
    assert Payloads(args)[0..] == Payloads(args);
  }

  /**
   The round trip of a socket message: pack, stamp the header over the front, ship
   the packet and the payload bytes, find the sizes at the packet's tail, and unpack
   with the same picture. Every scalar and every payload comes back.
   */
  lemma SocketRoundTrip(h: Header, picture: string, args: seq<Arg>, targets: seq<bool>)
    requires HeaderFits(h) && Agree(picture, args) && WellFormed(picture, true) && |targets| == |picture|
    requires AllWanted(targets)
    ensures Receive([Packet(h, args)] + Payloads(args), picture, targets) == Done(ReceivedAll(args))
    ensures Delivered(args, Receive([Packet(h, args)] + Payloads(args), picture, targets).value)
    ensures h.payloadCount == |Payloads(args)| ==>
      && |Packet(h, args)| >= HEADER && 8 * Parse(Packet(h, args)).payloadCount <= |Packet(h, args)|
      && Receive(Rebuilt(Packet(h, args), Joined(Payloads(args))), picture, targets) == Done(ReceivedAll(args))
  {
    hide Parse, Payloads, Cut;
    var frames := [Packet(h, args)] + Payloads(args);
    assert frames[1..] == Payloads(args);
    assert frames[0][HEADER..] == PackAll(args) + SizeTable(Payloads(args));
    UnpackPacked(frames[0][HEADER..], frames[1..], picture, targets, true, 0, 0, args);
    if h.payloadCount == |Payloads(args)| { RebuiltFrames(h, picture, args); }
  }

  /** Every wanted target receives its own argument, for all headers and arguments. */
  ghost predicate AlwaysWanted(picture: string, targets: seq<bool>)
    requires |targets| == |picture|
  {
    forall h, args :: HeaderFits(h) && Agree(picture, args) ==>
      Receive([Packet(h, args)] + Payloads(args), picture, targets) == Done(Wanted(args, targets))
  }

  /** The same for a server, which reads the sender first; b says whether it wants it. */
  ghost predicate AlwaysWantedFrom(picture: string, targets: seq<bool>, b: bool)
    requires |targets| == |picture|
  {
    forall h, args :: HeaderFits(h) && Agree(picture, args) ==>
      Receive([Packet(h, args)] + Payloads(args), "s" + picture, [b] + targets)
      == Done([if b then Sender(h.srcNode, h.srcMailbox) else Untouched] + Wanted(args, targets))
  }

  function Origin(h: Header, b: bool): Out {
    if b then Sender(h.srcNode, h.srcMailbox) else Untouched
  }

  /** Unpacking the arguments alone. */
  ghost predicate AlwaysUnpacked(picture: string, targets: seq<bool>)
    requires |targets| == |picture|
  {
    forall args {:trigger Agree(picture, args)} :: Agree(picture, args) ==>
      Unpack(PackAll(args) + SizeTable(Payloads(args)), Payloads(args), picture, targets, true, 0, 0)
      == Done(Wanted(args, targets))
  }

  lemma UnpackedExactly(picture: string, targets: seq<bool>)
    requires WellFormed(picture, true) && |targets| == |picture|
    ensures AlwaysUnpacked(picture, targets) <==> NothingShifts(picture, targets)
  {
    hide PackAll, Payloads, Unpack, SizeTable;
    if NothingShifts(picture, targets) {
      forall args | Agree(picture, args)
        ensures Unpack(PackAll(args) + SizeTable(Payloads(args)), Payloads(args), picture, targets, true, 0, 0)
             == Done(Wanted(args, targets))
      {
        UnpackWanted(PackAll(args) + SizeTable(Payloads(args)), Payloads(args), picture, targets, true, args);
      }
    } else {
      var args := UnpackWrong(picture, targets, true);
      assert Agree(picture, args) && Carries(PackAll(args) + SizeTable(Payloads(args)), Payloads(args), args);
    }
  }

  /**
   With NULL targets the round trip holds for all arguments exactly when no NULL target
   comes before a wanted one of its kind. A leading 's', wanted or not, changes nothing.
   */
  lemma SocketRoundTripExactly(picture: string, targets: seq<bool>, b: bool)
    requires WellFormed(picture, true) && |targets| == |picture|
    ensures AlwaysWanted(picture, targets) <==> NothingShifts(picture, targets)
    ensures AlwaysWantedFrom(picture, targets, b) <==> NothingShifts(picture, targets)
  {
    UnpackedExactly(picture, targets);
    forall h, args | HeaderFits(h) && Agree(picture, args)
      ensures var r := Unpack(PackAll(args) + SizeTable(Payloads(args)), Payloads(args), picture, targets, true, 0, 0);
        && Receive([Packet(h, args)] + Payloads(args), picture, targets) == r
        && Receive([Packet(h, args)] + Payloads(args), "s" + picture, [b] + targets) == Cons(Origin(h, b), r)
    {
      BodyOf(h, picture, args, targets, b);
    }
    hide Parse, Packet, PackAll, Payloads, Unpack, Receive, SizeTable, Wanted, NothingShifts;
    var h0 := Header(0, 0, 0, 0, 0);
    assert HeaderFits(h0);
    if AlwaysWanted(picture, targets) { PlainUnpacked(picture, targets, h0); }
    if AlwaysWantedFrom(picture, targets, b) { FromUnpacked(picture, targets, b, h0); }
  }

  lemma PlainUnpacked(picture: string, targets: seq<bool>, h: Header)
    requires WellFormed(picture, true) && |targets| == |picture| && HeaderFits(h) && AlwaysWanted(picture, targets)
    ensures AlwaysUnpacked(picture, targets)
  {
    hide Parse, Packet, PackAll, Payloads, Unpack, Receive, SizeTable, Wanted;
    forall args | Agree(picture, args)
      ensures Unpack(PackAll(args) + SizeTable(Payloads(args)), Payloads(args), picture, targets, true, 0, 0)
           == Done(Wanted(args, targets))
    {
      BodyOf(h, picture, args, targets, true);
    }
  }

  lemma FromUnpacked(picture: string, targets: seq<bool>, b: bool, h: Header)
    requires WellFormed(picture, true) && |targets| == |picture| && HeaderFits(h)
    requires AlwaysWantedFrom(picture, targets, b)
    ensures AlwaysUnpacked(picture, targets)
  {
    hide Parse, Packet, PackAll, Payloads, Unpack, Receive, SizeTable, Wanted;
    forall args | Agree(picture, args)
      ensures Unpack(PackAll(args) + SizeTable(Payloads(args)), Payloads(args), picture, targets, true, 0, 0)
           == Done(Wanted(args, targets))
    {
      BodyOf(h, picture, args, targets, b);
      var r := Unpack(PackAll(args) + SizeTable(Payloads(args)), Payloads(args), picture, targets, true, 0, 0);
      assert Cons(Origin(h, b), r) == Done([Origin(h, b)] + Wanted(args, targets));
      assert ([Origin(h, b)] + r.value)[1..] == r.value;
      assert ([Origin(h, b)] + Wanted(args, targets))[1..] == Wanted(args, targets);
    }
  }

  lemma BodyOf(h: Header, picture: string, args: seq<Arg>, targets: seq<bool>, b: bool)
    requires WellFormed(picture, true) && |targets| == |picture| == |args| && HeaderFits(h)
    ensures var r := Unpack(PackAll(args) + SizeTable(Payloads(args)), Payloads(args), picture, targets, true, 0, 0);
      && Receive([Packet(h, args)] + Payloads(args), picture, targets) == r
      && Receive([Packet(h, args)] + Payloads(args), "s" + picture, [b] + targets) == Cons(Origin(h, b), r)
  {
    hide Unpack, PackAll, Payloads, Parse, SizeTable, Receive, Stamp;
    var frames := [Packet(h, args)] + Payloads(args);
    assert frames[1..] == Payloads(args);
    assert frames[0][HEADER..] == PackAll(args) + SizeTable(Payloads(args));
    HeaderRoundTrip(h, PackAll(args) + SizeTable(Payloads(args)));
    ReceivePlain(frames, picture, targets);
    ReceiveFrom(frames, picture, targets, b);
  }

  lemma ReceiveFrom(frames: seq<seq<Byte>>, picture: string, targets: seq<bool>, b: bool)
    requires |frames| >= 1 && |frames[0]| >= HEADER && |targets| == |picture|
    ensures Receive(frames, "s" + picture, [b] + targets)
         == Cons(Origin(Parse(frames[0]), b), Unpack(frames[0][HEADER..], frames[1..], picture, targets, true, 0, 0))
  {
    hide Parse, Unpack;
    assert ("s" + picture)[1..] == picture && ([b] + targets)[1..] == targets;
  }

  lemma ReceivePlain(frames: seq<seq<Byte>>, picture: string, targets: seq<bool>)
    requires |frames| >= 1 && |frames[0]| >= HEADER && |targets| == |picture| && (picture == "" || picture[0] != 's')
    ensures Receive(frames, picture, targets) == Unpack(frames[0][HEADER..], frames[1..], picture, targets, true, 0, 0)
  {
  }

  /** With a leading 's' the receiver also learns the sender's node and mailbox. */
  lemma SocketRoundTripWithSender(h: Header, picture: string, args: seq<Arg>, targets: seq<bool>)
    requires HeaderFits(h) && Agree(picture, args) && WellFormed(picture, true) && |targets| == |picture|
    requires AllWanted(targets)
    ensures Receive([Packet(h, args)] + Payloads(args), "s" + picture, [true] + targets)
         == Done([Sender(h.srcNode, h.srcMailbox)] + ReceivedAll(args))
  {
    var frames := [Packet(h, args)] + Payloads(args);
    assert frames[1..] == Payloads(args);
    assert frames[0][HEADER..] == PackAll(args) + SizeTable(Payloads(args));
    HeaderRoundTrip(h, PackAll(args) + SizeTable(Payloads(args)));
    UnpackPacked(frames[0][HEADER..], frames[1..], picture, targets, true, 0, 0, args);
    assert ("s" + picture)[1..] == picture && ([true] + targets)[1..] == targets;
  }
}
