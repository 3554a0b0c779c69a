/**
  What it is for a channel operation to block, and what lets it go on: the counterparts the leak
  checks look for are exactly the operations that can, and without one it blocks for good.
 */
module Blocking {
  import opened Locations
  import opened Effects

  /** A channel as those who use it leave it: values in its buffer, goroutines waiting on either side. */
  datatype Channel = Channel(cap: nat, count: nat, senders: nat, receivers: nat, closed: bool)

  /** Values wait only for want of receivers, goroutines only for want of room or values. */
  predicate Consistent(c: Channel) {
    && c.count <= c.cap
    && (c.senders > 0 ==> c.count == c.cap && c.receivers == 0)
    && (c.receivers > 0 ==> c.count == 0)
  }

  function AfterSend(c: Channel): Channel {
    if c.closed then c
    else if c.receivers > 0 then c.(receivers := c.receivers - 1)
    else if c.count < c.cap then c.(count := c.count + 1)
    else c.(senders := c.senders + 1)
  }

  function AfterRecv(c: Channel): Channel {
    if c.senders > 0 then c.(senders := c.senders - 1)
    else if c.count > 0 then c.(count := c.count - 1)
    else if c.closed then c
    else c.(receivers := c.receivers + 1)
  }

  /** One operation of another goroutine; a select takes whichever of its arms it can, or another channel's. */
  predicate Acts(o: ChanOp, c: Channel, c': Channel) {
    match o
    case MakeOp => c' == c
    case SendOp => c' == AfterSend(c)
    case RecvOp => c' == AfterRecv(c)
    case CloseOp => c' == if c.closed then c else c.(closed := true, senders := 0, receivers := 0)
    case SelectOp => c' == c || c' == AfterSend(c) || c' == AfterRecv(c)
  }

  lemma ActsConsistent(o: ChanOp, c: Channel, c': Channel)
    requires Consistent(c) && Acts(o, c, c')
    ensures Consistent(c')
  {
  }

  /** A send or receive tried now would have to wait. */
  predicate Blocks(kind: CandKind, c: Channel) {
    match kind
    case SendCand => !c.closed && c.receivers == 0 && c.count == c.cap
    case RecvCand => !c.closed && c.senders == 0 && c.count == 0
    case SelectCand => false
  }

  ghost predicate CanUnblock(o: ChanOp, kind: CandKind) {
    exists c: Channel, c': Channel :: Consistent(c) && Blocks(kind, c) && Acts(o, c, c') && !Blocks(kind, c')
  }

  /** The counterparts looked for are the operations that can let a blocked one go on. */
  lemma UnblockersExact(o: ChanOp, kind: CandKind)
    ensures o in Unblockers(kind) <==> CanUnblock(o, kind)
  {
    var idle := Channel(0, 0, 0, 0, false);
    if kind != SelectCand {
      assert Blocks(kind, idle);
      if o == CloseOp {
        assert Acts(o, idle, idle.(closed := true)) && !Blocks(kind, idle.(closed := true));
      } else if o != MakeOp && o in Unblockers(kind) {
        var met := if kind == SendCand then AfterRecv(idle) else AfterSend(idle);
        assert Acts(o, idle, met) && !Blocks(kind, met);
      }
    }
    if CanUnblock(o, kind) {
      var c: Channel, c': Channel :| Consistent(c) && Blocks(kind, c) && Acts(o, c, c') && !Blocks(kind, c');
    }
  }

  /** Reason to stay silent is exactly some operation, there or at no location in particular, that can help. */
  lemma CounterpartExact(e: Effects, l: Loc, kind: CandKind)
    ensures HasCounterpart(e, l, kind) <==>
              kind == SelectCand
              || exists o :: CanUnblock(o, kind) && (o in At(e.chanOps, l) || o in At(e.chanOps, UNKNOWN))
  {
    hide CanUnblock, Unblockers;
    forall o: ChanOp
      ensures o in Unblockers(kind) <==> CanUnblock(o, kind)
    {
      UnblockersExact(o, kind);
    }
  }

  /** A channel's history: what others did to it, one after another. */
  ghost predicate History(states: seq<Channel>, ops: seq<ChanOp>) {
    |states| == |ops| + 1 && forall i :: 0 <= i < |ops| ==> Acts(ops[i], states[i], states[i + 1])
  }

  /** Every operation in the history is one the effects have at the location or at no location in particular. */
  ghost predicate DoneUnder(e: Effects, l: Loc, ops: seq<ChanOp>) {
    forall o :: o in ops ==> o in At(e.chanOps, l) || o in At(e.chanOps, UNKNOWN)
  }

  /** What has no counterpart stays blocked, whatever is done to the channel under those effects. */
  lemma {:induction false} StuckForGood(e: Effects, l: Loc, kind: CandKind, states: seq<Channel>, ops: seq<ChanOp>)
    requires !HasCounterpart(e, l, kind) && DoneUnder(e, l, ops)
    requires History(states, ops) && Consistent(states[0]) && Blocks(kind, states[0])
    ensures Blocks(kind, states[|ops|])
  {
    hide Acts, Blocks, Unblockers;
    if ops != [] {
      var o := ops[0];
      assert o in ops;
      assert o !in Unblockers(kind);
      UnblockersExact(o, kind);
      ActsConsistent(o, states[0], states[1]);
      assert Blocks(kind, states[1]);
      StuckForGood(e, l, kind, states[1..], ops[1..]);
    }
  }

  /** An arm of a select is judged like a plain operation, but for selects at its own location. */
  lemma ArmAsPlain(e: Effects, l: Loc, dir: nat)
    ensures var kind := if dir == 1 then SendCand else RecvCand;
            ArmHasCounterpart(e, l, dir) <==>
              AnyAt(e, l, Unblockers(kind) - {SelectOp}) || AnyAt(e, UNKNOWN, Unblockers(kind))
  {
    assert Unblockers(SendCand) - {SelectOp} == {RecvOp, CloseOp};
    assert Unblockers(RecvCand) - {SelectOp} == {SendOp, CloseOp};
    assert {RecvOp, SelectOp, CloseOp} == Unblockers(SendCand) && {SendOp, SelectOp, CloseOp} == Unblockers(RecvCand);
  }
}
