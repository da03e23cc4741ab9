/**
 In-process messages: hmsg_vset packs an argument list into a freshly allocated
 picture, hmsg_vget unpacks it and releases it.
 */
module Message {
  import opened Picture
  import opened NullTargets

  class Message {
    var picture: array<Byte>     // an empty array stands for NULL
    var pictureLen: nat

    /** hmsg_new */
    constructor ()
      ensures pictureLen == 0 && picture.Length == 0 && fresh(picture)
    {
      picture := new Byte[0];
      pictureLen := 0;
    }

    /** The picture frame holds exactly these arguments, packed from its start. */
    ghost predicate Holds(args: seq<Arg>)
      reads this, picture
    {
      pictureLen == |PackAll(args)| <= picture.Length && picture[..pictureLen] == PackAll(args)
    }

    /**
     hmsg_vset: eight bytes per element always suffice. An element that is not a
     scalar ends the process (ok == false).
     */
    method VSet(elements: string, args: seq<Arg>) returns (ok: bool)
      requires Agree(elements, args)
      modifies this
      ensures ok == WellFormed(elements, false)
      ensures ok <==> forall k :: 0 <= k < |elements| ==> elements[k] in "i1248dp"
      ensures ok ==> Holds(args) && fresh(picture) && picture.Length == 8 * |elements| && pictureLen <= 8 * |elements|
      ensures !ok ==> picture == old(picture) && pictureLen == old(pictureLen)
    {
      var msg := new Byte[8 * |elements|](i => 0);
      var size;
      ok, size := PackInto(msg, elements, args);
      if ok { picture, pictureLen := msg, size; }
    }

    /** The switch loop. */
    static method PackInto(msg: array<Byte>, elements: string, args: seq<Arg>) returns (ok: bool, size: nat)
      requires Agree(elements, args) && msg.Length == 8 * |elements|
      modifies msg
      ensures ok == WellFormed(elements, false)
      ensures ok ==> size == |PackAll(args)| <= msg.Length && msg[..size] == PackAll(args)
    {
      size := 0;
      var k: nat := 0;
      while k < |elements|
        invariant k <= |elements| && WellFormed(elements[..k], false)
        invariant size == |PackAll(args[..k])| <= 8 * k && msg[..size] == PackAll(args[..k])
      {
        if !Element(elements[k], false) { return false, size; }
        PackStep(elements, args, k, false);
        Store(msg, size, Pack(args[k]));
        assert msg[..size + |Pack(args[k])|] == msg[..][..size + |Pack(args[k])|] == PackAll(args[..k]) + Pack(args[k]);
        size := size + |Pack(args[k])|;
        k := k + 1;
      }
      assert args[..k] == args && elements[..k] == elements;
      return true, size;
    }

    /** hmsg_vget: delivers the values and releases the picture. */
    method VGet(elements: string, targets: seq<bool>) returns (r: Outcome<seq<Out>>)
      requires |targets| == |elements|
      modifies this
      ensures r == Unpack(old(picture[..]), [], elements, targets, false, 0, 0)
      ensures r.Done? ==> pictureLen == 0 && picture.Length == 0
      ensures !r.Done? ==> pictureLen == old(pictureLen) && picture == old(picture)
    {
      var outs: seq<Out> := [];
      var k: nat, ppos: nat := 0, 0;
      ghost var whole := Unpack(picture[..], [], elements, targets, false, 0, 0);
      assert elements[0..] == elements && targets[0..] == targets;
      PrependNone(whole);
      while k < |elements|
        invariant k <= |elements| && picture == old(picture) && pictureLen == old(pictureLen)
        invariant Prepend(outs, Unpack(picture[..], [], elements[k..], targets[k..], false, ppos, 0)) == whole
      {
        var c := elements[k];
        ghost var rest, more := elements[k..], targets[k..];
        assert rest[1..] == elements[k + 1..] && more[1..] == targets[k + 1..];
        if !Element(c, false) { return BadPicture; }
        var o := Untouched;
        if targets[k] {
          if ppos + Width(c) > picture.Length { return Overrun; }
          o := Load(c, picture[ppos..ppos + Width(c)]);
          assert picture[..][ppos..ppos + Width(c)] == picture[ppos..ppos + Width(c)];
          ppos := ppos + Width(c);
        }
        PrependCons(outs, o, Unpack(picture[..], [], elements[k + 1..], targets[k + 1..], false, ppos, 0));
        outs := outs + [o];
        k := k + 1;
      }
      assert outs + [] == outs;
      picture, pictureLen := new Byte[0], 0;
      return Done(outs);
    }
  }

  /** Reading a message back, whole or through any prefix of its picture, yields the values set. */
  lemma MessageRoundTrip(frame: seq<Byte>, elements: string, args: seq<Arg>, n: nat, targets: seq<bool>)
    requires Agree(elements, args) && WellFormed(elements, false) && PackAll(args) <= frame
    requires n <= |elements| && |targets| == n && AllWanted(targets)
    ensures Unpack(frame, [], elements[..n], targets, false, 0, 0) == Done(ReceivedAll(args)[..n])
    ensures Delivered(args[..n], Unpack(frame, [], elements[..n], targets, false, 0, 0).value)
  {
    NoPayloads(elements, args);
    UnpackPrefix(frame, [], elements, targets, false, args, n);
    ReceivedValues(args[..n], ReceivedAll(args[..n]));
    hide Delivered, Unpack, PackAll;
  }

  /** Every wanted target receives its own argument, for all arguments. */
  ghost predicate AlwaysWanted(elements: string, targets: seq<bool>)
    requires |targets| == |elements|
  {
    forall frame, args :: Agree(elements, args) && PackAll(args) <= frame ==>
      Unpack(frame, [], elements, targets, false, 0, 0) == Done(Wanted(args, targets))
  }

  /** With NULL targets this holds for all arguments exactly when no NULL target comes before a wanted one. */
  lemma MessageRoundTripExactly(elements: string, targets: seq<bool>)
    requires WellFormed(elements, false) && |targets| == |elements|
    ensures AlwaysWanted(elements, targets) <==> NothingShifts(elements, targets)
    ensures NothingShifts(elements, targets) <==> forall j, k :: 0 <= j < k < |targets| && targets[k] ==> targets[j]
  {
    hide Unpack, PackAll;
    if NothingShifts(elements, targets) {
      forall frame, args | Agree(elements, args) && PackAll(args) <= frame
        ensures Unpack(frame, [], elements, targets, false, 0, 0) == Done(Wanted(args, targets))
      {
        NoPayloads(elements, args);
        UnpackWanted(frame, [], elements, targets, false, args);
      }
    } else {
      var args := UnpackWrong(elements, targets, false);
      NoPayloads(elements, args);
      assert Agree(elements, args) && Carries(PackAll(args), [], args);
    }
  }

  lemma {:induction false} NoPayloads(elements: string, args: seq<Arg>)
    requires Agree(elements, args) && WellFormed(elements, false)
    ensures Payloads(args) == []
  {
    if args != [] {
      assert Fits(elements[0], args[0]);
      NoPayloads(elements[1..], args[1..]);
    }
  }
}
