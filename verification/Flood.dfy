/**
 The loops of hsock.c that cut payloads into fragments and put them together
 again, as code.
 */
module Flood {
  import opened Words
  import opened Picture
  import opened SockCodec
  import opened FloodModel
  import opened FloodInv

  /** What stays the same in all fragments of one message. */
  datatype Route = Route(from: nat, to: nat, fp: nat, cell: nat)

  function Piece(r: Route, frames: seq<seq<Byte>>, i: nat, offset: nat): Msg
    requires i < |frames| && offset <= |frames[i]|
  {
    var n := Min(|frames[i]| - offset, MAX_MEDIUM);
    FragmentReq(r.from, r.to, r.fp, i + 1, offset, r.cell, frames[i][offset..offset + n])
  }

  /** The fragments still to be sent when the cursor is at (i, offset). */
  function Pieces(r: Route, frames: seq<seq<Byte>>, i: nat, offset: nat): seq<Msg>
    decreases |frames| - i, if i < |frames| then |frames[i]| - offset else 0
  {
    if i >= |frames| then []
    else if offset >= |frames[i]| then Pieces(r, frames, i + 1, 0)
    else
      var m := Piece(r, frames, i, offset);
      [m] + Pieces(r, frames, i, offset + |m.bytes|)
  }

  /** The nested loops of flood: the requests sent, in order, and the number of acknowledgements to wait for. */
  method SendAll(r: Route, frames: seq<seq<Byte>>) returns (sent: seq<Msg>, counter: nat)
    ensures sent == Pieces(r, frames, 0, 0) && counter == |sent|
  {
    sent, counter := [], 0;
    var i := 0;
    while i < |frames|
      invariant i <= |frames| && counter == |sent|
      invariant sent + Pieces(r, frames, i, 0) == Pieces(r, frames, 0, 0)
    {
      var size, offset := |frames[i]|, 0;
      while size != 0
        invariant 0 <= offset <= |frames[i]| && size == |frames[i]| - offset && counter == |sent|
        invariant sent + Pieces(r, frames, i, offset) == Pieces(r, frames, 0, 0)
        decreases size
      {
        var n := Min(size, MAX_MEDIUM);
        var m := FragmentReq(r.from, r.to, r.fp, i + 1, offset, r.cell, frames[i][offset..offset + n]);
        assert sent + ([m] + Pieces(r, frames, i, offset + n)) == sent + [m] + Pieces(r, frames, i, offset + n);
        sent := sent + [m];
        counter := counter + 1;
        size := size - n;
        offset := offset + n;
      }
      i := i + 1;
    }
    assert sent + [] == sent;
  }

  /** One machine step posts exactly the next request of the loop. */
  lemma StepSendsNextPiece(st: State, s: Place)
    requires Enabled(st.w, SendFragment(s))
    ensures var k, k' := st.w.socks[s], Step(st, SendFragment(s)).w.socks[s];
            var r := Route(s.node, k.dest.node, k.pc.fp, s.addr);
            k'.pc.Flooding? && k'.wire == k.wire + multiset{Piece(r, k.frames, k.pc.i, k.pc.offset)} &&
            Pieces(r, k.frames, k.pc.i, k.pc.offset)
            == [Piece(r, k.frames, k.pc.i, k.pc.offset)] + Pieces(r, k.frames, k'.pc.i, k'.pc.offset)
  {
  }

  /**
   Every fragment is well formed: it goes to the frame array and names the cell; its
   bytes come from its place in its payload, 4000 of them unless the payload ends first.
   */
  lemma {:induction false} PiecesOk(r: Route, frames: seq<seq<Byte>>, i: nat, offset: nat, x: nat)
    requires x < |Pieces(r, frames, i, offset)|
    ensures var m := Pieces(r, frames, i, offset)[x];
            && m.FragmentReq? && m.from == r.from && m.to == r.to && m.frames == r.fp && m.cell == r.cell
            && 1 <= m.frameId <= |frames| && 1 <= |m.bytes| <= 4000
            && (|m.bytes| == 4000 || m.offset + |m.bytes| == |frames[m.frameId - 1]|)
            && m.offset + |m.bytes| <= |frames[m.frameId - 1]|
            && m.bytes == frames[m.frameId - 1][m.offset..m.offset + |m.bytes|]
            && (m.frameId > i + 1 || (m.frameId == i + 1 && m.offset >= offset))
    decreases |frames| - i, if i < |frames| then |frames[i]| - offset else 0
  {
    if offset >= |frames[i]| {
      PiecesOk(r, frames, i + 1, 0, x);
    } else if x > 0 {
      PiecesOk(r, frames, i, offset + |Piece(r, frames, i, offset).bytes|, x - 1);
    }
  }

  /** The fragments tile the payloads: every byte from the cursor on is in exactly one of them. */
  lemma {:induction false} PiecesTile(r: Route, frames: seq<seq<Byte>>, i: nat, offset: nat, j: nat,
                                      p: nat) returns (x: nat)
    requires j < |frames| && p < |frames[j]| && (j > i || (j == i && p >= offset))
    ensures x < |Pieces(r, frames, i, offset)| && Covers(Pieces(r, frames, i, offset)[x], j, p)
    ensures forall y: nat :: y < |Pieces(r, frames, i, offset)| && Covers(Pieces(r, frames, i, offset)[y], j, p) ==>
      y == x
    decreases |frames| - i, if i < |frames| then |frames[i]| - offset else 0
  {
    var all := Pieces(r, frames, i, offset);
    if offset >= |frames[i]| {
      x := PiecesTile(r, frames, i + 1, 0, j, p);
    } else {
      var m := Piece(r, frames, i, offset);
      var next := offset + |m.bytes|;
      var rest := Pieces(r, frames, i, next);
      assert all == [m] + rest;
      if Covers(m, j, p) {
        x := 0;
        forall y: nat | 0 < y < |all| ensures !Covers(all[y], j, p) {
          PiecesOk(r, frames, i, next, y - 1);
          assert all[y] == rest[y - 1];
        }
      } else {
        var z := PiecesTile(r, frames, i, next, j, p);
        x := z + 1;
        forall y: nat | y < |all| && Covers(all[y], j, p) ensures y == x {
          if y > 0 { assert all[y] == rest[y - 1]; }
        }
      }
    }
  }

  /** The payload handler's memcpy into a frame. */
  method CopyFragment(frame: array<Byte>, offset: nat, bytes: seq<Byte>)
    requires offset + |bytes| <= frame.Length
    modifies frame
    ensures frame[..] == Splice(old(frame[..]), offset, bytes)
  {
    Store(frame, offset, bytes);
  }

  /**
   The picture handler's allocation: frame 0 is a copy of the packet, the others are
   blank and of the announced sizes.
   */
  method AllocateFrames(buf: seq<Byte>) returns (frames: seq<array<Byte>>)
    requires |buf| >= HEADER && 8 * Parse(buf).payloadCount <= |buf|
    ensures |frames| == Parse(buf).payloadCount + 1 && frames[0][..] == buf
    ensures forall i :: 0 <= i < |frames| ==> fresh(frames[i])
    ensures forall i :: 0 <= i < Parse(buf).payloadCount ==>
      frames[i + 1][..] == BlankFrames(buf, Parse(buf).payloadCount)[i]
  {
    hide Parse, UnLE, TailSize;
    var count := Parse(buf).payloadCount;
    var picture := new Byte[|buf|];
    Store(picture, 0, buf);
    assert picture[..] == buf;
    frames := [picture];
    var i := 0;
    while i < count
      invariant i <= count && |frames| == i + 1 && frames[0] == picture && picture[..] == buf
      invariant forall j :: 0 <= j < |frames| ==> fresh(frames[j])
      invariant forall j :: 0 <= j < i ==> frames[j + 1][..] == BlankFrames(buf, count)[j]
    {
      var payload := new Byte[TailSize(buf, count, i)](j => 0);
      assert payload[..] == Blank(TailSize(buf, count, i));
      frames := frames + [payload];
      i := i + 1;
    }
  }
}
