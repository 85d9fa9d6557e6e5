/**
 * The single-slot picture hand-off buffer (src/video_output/pic_buf.c,
 * struct vlc_pic_buf in src/video_output/pic_buf.h).
 *
 * One producer pushes pictures, one consumer pops them. The slot holds at
 * most one picture: a push replaces and releases the previous occupant
 * ("latest wins"). Stop is a one-way flag after which Pop returns nothing.
 * The mutex and the condition variable are not modelled: every method is
 * one critical section, and Pop starts where its wait loop has ended.
 *
 * Pictures are values of a type parameter; picture_Release is recorded in
 * a ghost log instead of dropping a reference count.
 */
module PicBuf {
  import opened Wrappers

  class PicBuf<Pic(==)> {
    var pending: Option<Pic>
    var stopped: bool

    // History, for the proofs only: every picture pushed, released by the
    // buffer, and handed out by Pop, in order.
    ghost var pushed: seq<Pic>
    ghost var released: seq<Pic>
    ghost var popped: seq<Pic>

    /** The pictures the slot owns: none or one. */
    ghost function Held(): seq<Pic>
      reads this
    {
      if pending.Some? then [pending.value] else []
    }

    /** Ownership is conserved: each push is matched by a release, a pop, or the picture still in the slot. */
    ghost predicate Valid()
      reads this
    {
      multiset(pushed) == multiset(released) + multiset(popped) + multiset(Held())
    }

    /** vlc_pic_buf_Init: an empty slot, not stopped. */
    constructor Init()
      ensures Valid()
      ensures pending.None? && !stopped
      ensures pushed == [] && released == [] && popped == []
    {
      pending := None;
      stopped := false;
      pushed, released, popped := [], [], [];
    }

    /**
     * vlc_pic_buf_Push: install `pic`, releasing the picture it replaces.
     * It does not look at `stopped`: after Stop the picture is still installed.
     */
    method Push(pic: Pic)
      requires Valid()
      modifies this
      ensures Valid()
      ensures pending == Some(pic) && stopped == old(stopped)
      ensures released == old(released) + old(Held())
      ensures pushed == old(pushed) + [pic] && popped == old(popped)
    {
      ghost var replaced := Held();
      if pending.Some? {
        released := released + [pending.value];
      }
      assert multiset(released) == multiset(old(released)) + multiset(replaced);
      pending := Some(pic);
      pushed := pushed + [pic];
      assert Held() == [pic];
    }

    /**
     * vlc_pic_buf_Pop from the point its wait loop exits, that is once the
     * buffer is stopped or holds a picture. Stopped wins: it returns None
     * and leaves a pending picture where it is. Otherwise it hands out the
     * picture and empties the slot.
     */
    method Pop() returns (out: Option<Pic>)
      requires Valid()
      requires stopped || pending.Some?
      modifies this
      ensures Valid()
      ensures stopped == old(stopped) && pushed == old(pushed) && released == old(released)
      ensures old(stopped) ==> out.None? && pending == old(pending) && popped == old(popped)
      ensures !old(stopped) ==> out.Some? && out == old(pending) && pending.None?
                                && popped == old(popped) + [out.value]
    {
      if stopped {
        return None;
      }
      out := pending;
      pending := None;
      popped := popped + [out.value];
    }

    /** vlc_pic_buf_Stop: set the one-way flag; the slot is untouched, so calling it again changes nothing. */
    method Stop()
      requires Valid()
      modifies this`stopped
      ensures Valid() && stopped
    {
      stopped := true;
    }

    /**
     * vlc_pic_buf_Destroy: release the picture still in the slot, if any.
     * Afterwards every picture ever pushed has been released or handed out.
     */
    method Destroy()
      requires Valid()
      modifies this`released
      ensures released == old(released) + Held()
      ensures multiset(pushed) == multiset(released) + multiset(popped)
    {
      if pending.Some? {
        released := released + [pending.value];
      }
    }
  }

  /**
   * Once everything is accounted for, a picture pushed once was either
   * released once or handed out once, never both.
   */
  lemma ReleasedOrPoppedOnce<Pic>(pushed: seq<Pic>, released: seq<Pic>, popped: seq<Pic>, p: Pic)
    requires multiset(pushed) == multiset(released) + multiset(popped)
    requires multiset(pushed)[p] == 1
    ensures (multiset(released)[p] == 1 && p !in popped) || (multiset(popped)[p] == 1 && p !in released)
  {
    assert multiset(released)[p] + multiset(popped)[p] == 1;
  }

  /** Push(a), Push(b), Pop: b comes out and a has been released exactly once. */
  method PushPushPop<Pic(==)>(a: Pic, b: Pic) returns (out: Option<Pic>, ghost released: seq<Pic>)
    ensures out == Some(b)
    ensures released == [a]
  {
    var pb := new PicBuf<Pic>.Init();
    pb.Push(a);
    pb.Push(b);
    out := pb.Pop();
    released := pb.released;
  }

  /** Stop before anything was pushed: Pop no longer waits and returns None. */
  method StopThenPop<Pic(==)>() returns (out: Option<Pic>)
    ensures out.None?
  {
    var pb := new PicBuf<Pic>.Init();
    pb.Stop();
    out := pb.Pop();
  }

  /** Push(c), Stop, Pop: Pop returns None even though c is pending, and c stays in the slot. */
  method PushStopPop<Pic(==)>(c: Pic) returns (out: Option<Pic>, ghost held: Option<Pic>)
    ensures out.None?
    ensures held == Some(c)
  {
    var pb := new PicBuf<Pic>.Init();
    pb.Push(c);
    pb.Stop();
    out := pb.Pop();
    held := pb.pending;
  }

  /**
   * Stop, Push(d), Pop, Destroy: the push after Stop is installed, Pop
   * does not hand it out, and Destroy releases it.
   */
  method StopPushPopDestroy<Pic(==)>(d: Pic) returns (out: Option<Pic>, ghost released: seq<Pic>)
    ensures out.None?
    ensures released == [d]
  {
    var pb := new PicBuf<Pic>.Init();
    pb.Stop();
    pb.Push(d);
    out := pb.Pop();
    pb.Destroy();
    released := pb.released;
  }
}
