/**
 What the unpackers deliver when some targets are NULL. A NULL target is skipped
 without advancing, so it shifts later elements of its own kind: scalars share one
 position, payloads share one frame counter.
 */
module NullTargets {
  import opened Picture

  /** Some NULL target before element k is of k's kind. */
  predicate SkippedBefore(picture: string, targets: seq<bool>, k: nat)
    requires k < |picture| == |targets|
  {
    exists j :: 0 <= j < k && !targets[j] && (picture[j] == 'b') == (picture[k] == 'b')
  }

  /** No NULL target comes before a wanted one of its kind. */
  predicate NothingShifts(picture: string, targets: seq<bool>)
    requires |targets| == |picture|
  {
    forall j, k :: 0 <= j < k < |picture| && !targets[j] && targets[k] ==> (picture[j] == 'b') != (picture[k] == 'b')
  }

  /** The values that the wanted targets should receive. */
  function Wanted(args: seq<Arg>, targets: seq<bool>): (outs: seq<Out>)
    requires |targets| == |args|
    ensures |outs| == |args|
  {
    seq(|args|, k requires 0 <= k < |args| => if targets[k] then Received(args[k]) else Untouched)
  }

  /**
   Where unpacking stands: at pos and fid, while the next argument's bytes are at own
   and its payload at frame gid.
   */
  ghost predicate Behind(body: seq<Byte>, frames: seq<seq<Byte>>, pos: nat, own: nat, fid: nat, gid: nat,
                         args: seq<Arg>) {
    && pos <= own <= |body| && PackAll(args) <= body[own..]
    && fid <= gid <= |frames| && Payloads(args) <= frames[gid..]
  }

  /** Positions after one element. */
  function Next(c: char, at: nat): nat {
    if c == 'b' then at else at + Width(c)
  }

  function NextFrame(c: char, at: nat): nat {
    if c == 'b' then at + 1 else at
  }

  lemma BehindNext(body: seq<Byte>, frames: seq<seq<Byte>>, pos: nat, own: nat, fid: nat, gid: nat, args: seq<Arg>,
                   c: char, wanted: bool)
    requires args != [] && Fits(c, args[0]) && Behind(body, frames, pos, own, fid, gid, args)
    ensures Behind(body, frames, if wanted then Next(c, pos) else pos, Next(c, own),
                   if wanted then NextFrame(c, fid) else fid, NextFrame(c, gid), args[1..])
    ensures c == 'b' ==> gid < |frames| && frames[gid] == args[0].data
    ensures c != 'b' ==> own + Width(c) <= |body| && body[own..own + Width(c)] == Pack(args[0])
  {
    PackCons(args);
    if c == 'b' {
      assert PackAll(args) == PackAll(args[1..]);
      assert Payloads(args) == [args[0].data] + Payloads(args[1..]);
      assert frames[gid] == frames[gid..][0] == Payloads(args)[0];
      assert frames[gid + 1..] == frames[gid..][1..] && Payloads(args)[1..] == Payloads(args[1..]);
    } else {
      LoadPacked(c, args[0]);
      assert Payloads(args) == Payloads(args[1..]);
      PrefixParts(Pack(args[0]), PackAll(args[1..]), body, own);
    }
  }

  /** Unpacking after the first element. */
  function Rest(body: seq<Byte>, frames: seq<seq<Byte>>, picture: string, targets: seq<bool>, blocks: bool, pos: nat,
                fid: nat): Outcome<seq<Out>>
    requires |targets| == |picture| > 0
  {
    var c := picture[0];
    Unpack(body, frames, picture[1..], targets[1..], blocks,
           if targets[0] then Next(c, pos) else pos, if targets[0] then NextFrame(c, fid) else fid)
  }

  /** One element, given where the arguments are. */
  lemma UnpackFirst(body: seq<Byte>, frames: seq<seq<Byte>>, picture: string, targets: seq<bool>, blocks: bool,
                    pos: nat, own: nat, fid: nat, gid: nat, args: seq<Arg>)
    requires picture != "" && Agree(picture, args) && WellFormed(picture, blocks) && |targets| == |picture|
    requires Behind(body, frames, pos, own, fid, gid, args)
    ensures Agree(picture[1..], args[1..]) && WellFormed(picture[1..], blocks)
    ensures var c := picture[0];
      && (targets[0] && c == 'b' ==> fid < |frames|)
      && (targets[0] && c != 'b' ==> pos + Width(c) <= |body|)
      && Unpack(body, frames, picture, targets, blocks, pos, fid)
         == Cons(if !targets[0] then Untouched
                 else if c == 'b' then Block(frames[fid]) else Load(c, body[pos..pos + Width(c)]),
                 Rest(body, frames, picture, targets, blocks, pos, fid))
  {
    BehindNext(body, frames, pos, own, fid, gid, args, picture[0], targets[0]);
  }

  /** Whatever the targets are, unpacking never leaves the message. */
  lemma {:induction false} UnpackDone(body: seq<Byte>, frames: seq<seq<Byte>>, picture: string, targets: seq<bool>,
                                      blocks: bool,
                                      pos: nat, own: nat, fid: nat, gid: nat, args: seq<Arg>)
    requires Agree(picture, args) && WellFormed(picture, blocks) && |targets| == |picture|
    requires Behind(body, frames, pos, own, fid, gid, args)
    ensures var r := Unpack(body, frames, picture, targets, blocks, pos, fid); r.Done? && |r.value| == |picture|
    ensures var r := Unpack(body, frames, picture, targets, blocks, pos, fid);
      forall k :: 0 <= k < |picture| && !targets[k] ==> r.value[k] == Untouched
    decreases |picture|
  {
    if picture != "" {
      var c, w := picture[0], targets[0];
      UnpackFirst(body, frames, picture, targets, blocks, pos, own, fid, gid, args);
      BehindNext(body, frames, pos, own, fid, gid, args, c, w);
      hide Unpack, Behind;
      UnpackDone(body, frames, picture[1..], targets[1..], blocks, if w then Next(c, pos) else pos, Next(c, own),
                 if w then NextFrame(c, fid) else fid, NextFrame(c, gid), args[1..]);
    }
  }

  /** A wanted element with no skipped element of its kind before it is received. */
  lemma {:induction false} ElementReceived(body: seq<Byte>, frames: seq<seq<Byte>>, picture: string,
                                           targets: seq<bool>, blocks: bool,
                                           pos: nat, own: nat, fid: nat, gid: nat, args: seq<Arg>, k: nat)
    requires Agree(picture, args) && WellFormed(picture, blocks) && k < |targets| == |picture|
    requires Behind(body, frames, pos, own, fid, gid, args)
    requires targets[k] && !SkippedBefore(picture, targets, k)
    requires if picture[k] == 'b' then fid == gid else pos == own
    ensures var r := Unpack(body, frames, picture, targets, blocks, pos, fid);
      r.Done? && |r.value| == |picture| && r.value[k] == Received(args[k])
    decreases |picture|
  {
    var c, w := picture[0], targets[0];
    UnpackDone(body, frames, picture, targets, blocks, pos, own, fid, gid, args);
    UnpackFirst(body, frames, picture, targets, blocks, pos, own, fid, gid, args);
    BehindNext(body, frames, pos, own, fid, gid, args, c, w);
    hide Unpack, Behind;
    if k == 0 {
      if c != 'b' { LoadPacked(c, args[0]); }
    } else {
      assert !w ==> (c == 'b') != (picture[k] == 'b');
      LaterUnskipped(picture, targets, k);
      ElementReceived(body, frames, picture[1..], targets[1..], blocks, if w then Next(c, pos) else pos, Next(c, own),
                      if w then NextFrame(c, fid) else fid, NextFrame(c, gid), args[1..], k - 1);
    }
  }

  lemma LaterUnskipped(picture: string, targets: seq<bool>, k: nat)
    requires 0 < k < |picture| == |targets| && !SkippedBefore(picture, targets, k)
    ensures !SkippedBefore(picture[1..], targets[1..], k - 1)
  {
    forall j | 0 <= j < k - 1 && !targets[1..][j] ensures (picture[1..][j] == 'b') != (picture[1..][k - 1] == 'b') {
      assert !targets[j + 1];
    }
  }

  // ---------------------------------------------------------------- and otherwise it is not

  function Zero(c: char): Arg {
    match c
    case 'i' => Int(0) case '1' => Char(0) case '2' => Short(0) case '4' => UInt(0)
    case '8' => ULong(0) case 'd' => Double(0) case 'p' => Pointer(0) case _ => Payload([])
  }

  function One(c: char): Arg {
    match c
    case 'i' => Int(1) case '1' => Char(1) case '2' => Short(1) case '4' => UInt(1)
    case '8' => ULong(1) case 'd' => Double(1) case 'p' => Pointer(1) case _ => Payload([1])
  }

  /** Element k is one (or a payload of one byte), every other element zero (or empty). */
  function Marked(picture: string, k: nat): (args: seq<Arg>)
    ensures |args| == |picture|
  {
    seq(|picture|, i requires 0 <= i < |picture| => if i == k then One(picture[i]) else Zero(picture[i]))
  }

  lemma MarkedAgrees(picture: string, k: nat)
    ensures Agree(picture, Marked(picture, k))
  {
  }

  lemma MarkedRest(picture: string, k: nat)
    requires 0 < k < |picture|
    ensures Marked(picture, k)[1..] == Marked(picture[1..], k - 1) && Marked(picture, k)[0] == Zero(picture[0])
  {
  }

  lemma {:induction false} ZeroBytes(n: nat)
    ensures forall i :: 0 <= i < n ==> LE(n, 0)[i] == 0
  {
    if n > 0 { ZeroBytes(n - 1); }
  }

  lemma ZeroPacked(c: char)
    requires Scalar(c)
    ensures forall i :: 0 <= i < |Pack(Zero(c))| ==> Pack(Zero(c))[i] == 0
  {
    ZeroBytes(4);
    ZeroBytes(8);
  }

  /** A value whose lowest byte is zero is not one. */
  lemma LoadNotOne(c: char, b: seq<Byte>)
    requires Scalar(c) && |b| == Width(c) && b[0] == 0
    ensures Load(c, b) != Received(One(c))
  {
    assert UnLE(b) % 256 == 0;
  }

  /** Everything between where unpacking stands and where it should stand is zero or empty. */
  ghost predicate Blank(body: seq<Byte>, frames: seq<seq<Byte>>, pos: nat, own: nat, fid: nat, gid: nat) {
    && pos <= own <= |body| && (forall i :: pos <= i < own ==> body[i] == 0)
    && fid <= gid <= |frames| && (forall i :: fid <= i < gid ==> frames[i] == [])
  }

  lemma BlankNext(body: seq<Byte>, frames: seq<seq<Byte>>, pos: nat, own: nat, fid: nat, gid: nat, args: seq<Arg>,
                  c: char, wanted: bool)
    requires args != [] && Element(c, true) && args[0] == Zero(c) && Behind(body, frames, pos, own, fid, gid, args)
    requires Blank(body, frames, pos, own, fid, gid)
    ensures Blank(body, frames, if wanted then Next(c, pos) else pos, Next(c, own),
                  if wanted then NextFrame(c, fid) else fid, NextFrame(c, gid))
  {
    BehindNext(body, frames, pos, own, fid, gid, args, c, wanted);
    if c != 'b' {
      ZeroPacked(c);
      forall i | own <= i < own + Width(c) ensures body[i] == 0 {
        assert body[i] == body[own..own + Width(c)][i - own];
      }
    }
  }

  /** A wanted element behind a skipped one of its kind does not receive its mark. */
  lemma {:induction false} ElementShifted(body: seq<Byte>, frames: seq<seq<Byte>>, picture: string,
                                          targets: seq<bool>, blocks: bool,
                                          pos: nat, own: nat, fid: nat, gid: nat, k: nat)
    requires WellFormed(picture, blocks) && k < |targets| == |picture| && targets[k]
    requires Behind(body, frames, pos, own, fid, gid, Marked(picture, k)) && Blank(body, frames, pos, own, fid, gid)
    requires SkippedBefore(picture, targets, k) || (if picture[k] == 'b' then fid < gid else pos < own)
    ensures var r := Unpack(body, frames, picture, targets, blocks, pos, fid);
      r.Done? && |r.value| == |picture| && r.value[k] != Received(Marked(picture, k)[k])
    decreases |picture|
  {
    var args, c, w := Marked(picture, k), picture[0], targets[0];
    MarkedAgrees(picture, k);
    UnpackDone(body, frames, picture, targets, blocks, pos, own, fid, gid, args);
    UnpackFirst(body, frames, picture, targets, blocks, pos, own, fid, gid, args);
    hide Unpack, Load, UnLE;
    if k == 0 {
      if c != 'b' { LoadNotOne(c, body[pos..pos + Width(c)]); }
    } else {
      MarkedRest(picture, k);
      BehindNext(body, frames, pos, own, fid, gid, args, c, w);
      BlankNext(body, frames, pos, own, fid, gid, args, c, w);
      LaterSkipped(picture, targets, k);
      assert picture[1..][k - 1] == picture[k] && targets[1..][k - 1] == targets[k];
      hide Behind, Blank, Marked, SkippedBefore;
      ElementShifted(body, frames, picture[1..], targets[1..], blocks, if w then Next(c, pos) else pos, Next(c, own),
                     if w then NextFrame(c, fid) else fid, NextFrame(c, gid), k - 1);
    }
  }

  lemma LaterSkipped(picture: string, targets: seq<bool>, k: nat)
    requires 0 < k < |picture| == |targets|
    ensures SkippedBefore(picture, targets, k) ==>
      SkippedBefore(picture[1..], targets[1..], k - 1) || (!targets[0] && (picture[0] == 'b') == (picture[k] == 'b'))
  {
    if !SkippedBefore(picture, targets, k) { return; }
    var j :| 0 <= j < k && !targets[j] && (picture[j] == 'b') == (picture[k] == 'b');
    if j > 0 { assert !targets[1..][j - 1] && (picture[1..][j - 1] == 'b') == (picture[1..][k - 1] == 'b'); }
  }

  // ---------------------------------------------------------------- results

  /** What was packed, followed by anything, as the unpackers find it. */
  ghost predicate Carries(body: seq<Byte>, frames: seq<seq<Byte>>, args: seq<Arg>) {
    PackAll(args) <= body && Payloads(args) <= frames
  }

  /** Element k receives its own argument, whatever the arguments are. */
  ghost predicate AlwaysReceived(picture: string, targets: seq<bool>, blocks: bool, k: nat)
    requires k < |picture| == |targets|
  {
    forall body, frames, args :: Agree(picture, args) && Carries(body, frames, args) ==>
      var r := Unpack(body, frames, picture, targets, blocks, 0, 0);
      r.Done? && |r.value| == |picture| && r.value[k] == Received(args[k])
  }

  /** A wanted element is received for all arguments exactly when no element of its kind was skipped before it. */
  lemma ElementExactly(picture: string, targets: seq<bool>, blocks: bool, k: nat)
    requires WellFormed(picture, blocks) && k < |targets| == |picture| && targets[k]
    ensures AlwaysReceived(picture, targets, blocks, k) <==> !SkippedBefore(picture, targets, k)
  {
    if SkippedBefore(picture, targets, k) {
      var args := Marked(picture, k);
      var body, frames := PackAll(args), Payloads(args);
      MarkedAgrees(picture, k);
      assert body[0..] == body && frames[0..] == frames;
      ElementShifted(body, frames, picture, targets, blocks, 0, 0, 0, 0, k);
      assert Agree(picture, args) && Carries(body, frames, args);
    } else {
      forall body, frames, args | Agree(picture, args) && Carries(body, frames, args)
        ensures var r := Unpack(body, frames, picture, targets, blocks, 0, 0);
          r.Done? && |r.value| == |picture| && r.value[k] == Received(args[k])
      {
        assert body[0..] == body && frames[0..] == frames;
        ElementReceived(body, frames, picture, targets, blocks, 0, 0, 0, 0, args, k);
      }
    }
  }

  /** With nothing shifted, every wanted target receives its own argument and unpacking succeeds. */
  lemma UnpackWanted(body: seq<Byte>, frames: seq<seq<Byte>>, picture: string, targets: seq<bool>, blocks: bool,
                     args: seq<Arg>)
    requires Agree(picture, args) && WellFormed(picture, blocks) && |targets| == |picture|
    requires Carries(body, frames, args) && NothingShifts(picture, targets)
    ensures Unpack(body, frames, picture, targets, blocks, 0, 0) == Done(Wanted(args, targets))
  {
    assert body[0..] == body && frames[0..] == frames;
    UnpackDone(body, frames, picture, targets, blocks, 0, 0, 0, 0, args);
    var r := Unpack(body, frames, picture, targets, blocks, 0, 0);
    forall k | 0 <= k < |picture| ensures r.value[k] == Wanted(args, targets)[k] {
      if targets[k] { ElementReceived(body, frames, picture, targets, blocks, 0, 0, 0, 0, args, k); }
    }
    assert r.value == Wanted(args, targets);
  }

  /** Arguments that go wrong when something shifts: their own packing is the message. */
  lemma UnpackWrong(picture: string, targets: seq<bool>, blocks: bool) returns (args: seq<Arg>)
    requires WellFormed(picture, blocks) && |targets| == |picture| && !NothingShifts(picture, targets)
    ensures Agree(picture, args)
    ensures forall body, frames :: Carries(body, frames, args) ==>
      Unpack(body, frames, picture, targets, blocks, 0, 0) != Done(Wanted(args, targets))
  {
    var j, k :| 0 <= j < k < |picture| && !targets[j] && targets[k] && (picture[j] == 'b') == (picture[k] == 'b');
    args := Marked(picture, k);
    MarkedAgrees(picture, k);
    forall body, frames | Carries(body, frames, args)
      ensures Unpack(body, frames, picture, targets, blocks, 0, 0) != Done(Wanted(args, targets))
    {
      assert body[0..] == body && frames[0..] == frames;
      ElementShifted(body, frames, picture, targets, blocks, 0, 0, 0, 0, k);
    }
  }

  /** Whatever the later targets are, every element before the first NULL target is received correctly. */
  lemma UnpackBeforeNull(body: seq<Byte>, frames: seq<seq<Byte>>, picture: string, targets: seq<bool>, blocks: bool,
                         args: seq<Arg>, n: nat)
    requires Agree(picture, args) && WellFormed(picture, blocks) && |targets| == |picture| && n <= |picture|
    requires AllWanted(targets[..n])
    requires Carries(body, frames, args)
    ensures var r := Unpack(body, frames, picture, targets, blocks, 0, 0);
      r.Done? && |r.value| == |picture| && r.value[..n] == ReceivedAll(args)[..n]
  {
    assert body[0..] == body && frames[0..] == frames;
    UnpackDone(body, frames, picture, targets, blocks, 0, 0, 0, 0, args);
    forall k | 0 <= k < n ensures Unpack(body, frames, picture, targets, blocks, 0, 0).value[k] == Received(args[k]) {
      assert forall j :: 0 <= j < n ==> targets[..n][j] == targets[j];
      ElementReceived(body, frames, picture, targets, blocks, 0, 0, 0, 0, args, k);
    }
  }
}
