/**
 The alternating-bit protocol over lossy one-slot channels (AlternatingBitProtocol.rs).

 The shipped contracts constrain four bits. Here the same steps carry payloads, and every run
 delivers the offered payloads once each and in order.
 */
module AlternatingBit {

  datatype Bits = Bits(sender: int, receiver: int, msg: int, ack: int)

  datatype Step = SendMsg | DropMsg | ReceiveMsg | DropAck | ReceiveAck | ResendAck

  const INITIAL_BITS := Bits(0, 0, -1, -1)

  /** The guard each method requires beside the invariant. */
  predicate Enabled(b: Bits, step: Step) {
    match step
    case SendMsg => b.msg == -1
    case DropMsg => b.msg != -1
    case ReceiveMsg => b.msg == b.receiver && b.ack == -1
    case DropAck => b.ack != -1
    case ReceiveAck => b.ack == b.sender
    case ResendAck => b.msg != -1 && b.msg != b.receiver && b.ack == -1
  }

  function Apply(b: Bits, step: Step): Bits {
    match step
    case SendMsg => b.(msg := b.sender)
    case DropMsg => b.(msg := -1)
    case ReceiveMsg => b.(ack := b.receiver, msg := -1, receiver := 1 - b.receiver)
    case DropAck => b.(ack := -1)
    case ReceiveAck => b.(ack := -1, sender := 1 - b.sender)
    case ResendAck => b.(ack := b.msg, msg := -1)
  }

  /** The invariant all shipped contracts repeat. */
  predicate ShippedInvariant(b: Bits) {
    && 0 <= b.sender <= 1 && 0 <= b.receiver <= 1 && -1 <= b.msg <= 1 && -1 <= b.ack <= 1
    && (b.msg == b.receiver ==> b.sender == b.receiver)
    && (b.ack == b.sender ==> b.sender != b.receiver)
    && (b.sender == b.receiver ==> b.ack != b.sender)
    && (b.sender != b.receiver ==> b.msg != b.receiver)
  }

  class Protocol {
    var senderBit: int
    var receiverBit: int
    var msgChannel: int
    var ackChannel: int

    function Contents(): Bits
      reads this
    {
      Bits(senderBit, receiverBit, msgChannel, ackChannel)
    }

    constructor ()
      ensures Contents() == INITIAL_BITS && ShippedInvariant(Contents())
    {
      senderBit, receiverBit, msgChannel, ackChannel := 0, 0, -1, -1;
    }

    method DoSendMsg()
      requires ShippedInvariant(Contents()) && Enabled(Contents(), SendMsg)
      modifies this
      ensures ShippedInvariant(Contents()) && Contents() == Apply(old(Contents()), SendMsg)
    {
      var pre := senderBit;
      msgChannel := pre;
    }

    method DoDropMsg()
      requires ShippedInvariant(Contents()) && Enabled(Contents(), DropMsg)
      modifies this
      ensures ShippedInvariant(Contents()) && Contents() == Apply(old(Contents()), DropMsg)
    {
      msgChannel := -1;
    }

    method DoReceiveMsg()
      requires ShippedInvariant(Contents()) && Enabled(Contents(), ReceiveMsg)
      modifies this
      ensures ShippedInvariant(Contents()) && Contents() == Apply(old(Contents()), ReceiveMsg)
    {
      var pre := receiverBit;
      ackChannel := pre;
      msgChannel := -1;
      receiverBit := 1 - pre;
    }

    method DoDropAck()
      requires ShippedInvariant(Contents()) && Enabled(Contents(), DropAck)
      modifies this
      ensures ShippedInvariant(Contents()) && Contents() == Apply(old(Contents()), DropAck)
    {
      ackChannel := -1;
    }

    method DoReceiveAck()
      requires ShippedInvariant(Contents()) && Enabled(Contents(), ReceiveAck)
      modifies this
      ensures ShippedInvariant(Contents()) && Contents() == Apply(old(Contents()), ReceiveAck)
    {
      var pre := senderBit;
      ackChannel := -1;
      senderBit := 1 - pre;
    }

    method DoResendAck()
      requires ShippedInvariant(Contents()) && Enabled(Contents(), ResendAck)
      modifies this
      ensures ShippedInvariant(Contents()) && Contents() == Apply(old(Contents()), ResendAck)
    {
      var pre := msgChannel;
      ackChannel := pre;
      msgChannel := -1;
    }
  }

  // ---------------------------------------------------------------- payloads

  /**
   The bits with payloads: the sender transmits the payload after those acknowledged, the message
   slot holds the payload it was sent with, and receiving appends that payload.
   */
  datatype Link<T> = Link(bits: Bits, acked: nat, carried: nat, delivered: seq<T>)

  function InitialLink<T>(): Link<T> {
    Link(INITIAL_BITS, 0, 0, [])
  }

  function Next<T>(offered: nat -> T, l: Link<T>, step: Step): Link<T> {
    var bits := Apply(l.bits, step);
    match step
    case SendMsg => l.(bits := bits, carried := l.acked)
    case ReceiveMsg => l.(bits := bits, delivered := l.delivered + [offered(l.carried)])
    case ReceiveAck => l.(bits := bits, acked := l.acked + 1)
    case _ => l.(bits := bits)
  }

  function Exec<T>(offered: nat -> T, l: Link<T>, steps: seq<Step>): Link<T>
    decreases |steps|
  {
    if steps == [] then l else Exec(offered, Next(offered, l, steps[0]), steps[1..])
  }

  predicate Allowed<T>(offered: nat -> T, l: Link<T>, steps: seq<Step>)
    decreases |steps|
  {
    steps == [] || (Enabled(l.bits, steps[0]) && Allowed(offered, Next(offered, l, steps[0]), steps[1..]))
  }

  function Count(steps: seq<Step>, step: Step): nat {
    if steps == [] then 0 else (if steps[0] == step then 1 else 0) + Count(steps[1..], step)
  }

  /** Each bit is the parity of its counter, and a stale message can only be the one just acknowledged. */
  ghost predicate LinkOk<T>(offered: nat -> T, l: Link<T>) {
    && l.bits.sender == l.acked % 2
    && l.bits.receiver == |l.delivered| % 2
    && l.acked <= |l.delivered| <= l.acked + 1
    && (forall i | 0 <= i < |l.delivered| :: l.delivered[i] == offered(i))
    && (l.bits.msg != -1 ==>
          && l.bits.msg == l.carried % 2
          && (l.carried == l.acked || (l.carried + 1 == l.acked && |l.delivered| == l.acked)))
    && -1 <= l.bits.ack <= 1
    && (l.bits.ack == l.bits.sender ==> |l.delivered| == l.acked + 1)
  }

  lemma LinkStep<T>(offered: nat -> T, l: Link<T>, step: Step)
    requires LinkOk(offered, l) && Enabled(l.bits, step)
    ensures LinkOk(offered, Next(offered, l, step))
    ensures step == ReceiveMsg ==> l.carried == |l.delivered|
  {
  }

  lemma LinkImpliesShipped<T>(offered: nat -> T, l: Link<T>)
    requires LinkOk(offered, l)
    ensures ShippedInvariant(l.bits)
  {
  }

  lemma {:induction false} ExecOk<T>(offered: nat -> T, l: Link<T>, steps: seq<Step>)
    requires LinkOk(offered, l) && Allowed(offered, l, steps)
    ensures var end := Exec(offered, l, steps);
            && LinkOk(offered, end)
            && |end.delivered| == |l.delivered| + Count(steps, ReceiveMsg)
            && end.acked == l.acked + Count(steps, ReceiveAck)
    decreases |steps|
  {
    if steps != [] {
      LinkStep(offered, l, steps[0]);
      ExecOk(offered, Next(offered, l, steps[0]), steps[1..]);
    }
  }

  /**
   Exactly once and in order: after every run, with any losses and retransmissions, the delivered
   payloads are the first ones offered, one per receive_msg step; receive_msg is at most one ahead of
   receive_ack; and each bit is the parity of its counter.
   */
  lemma ExactlyOnceInOrder<T>(offered: nat -> T, steps: seq<Step>)
    requires Allowed(offered, InitialLink(), steps)
    ensures var end := Exec(offered, InitialLink(), steps);
            var received, acked := Count(steps, ReceiveMsg), Count(steps, ReceiveAck);
            && |end.delivered| == received
            && (forall i | 0 <= i < received :: end.delivered[i] == offered(i))
            && 0 <= received - acked <= 1
            && end.bits.sender == acked % 2 && end.bits.receiver == received % 2
            && ShippedInvariant(end.bits)
  {
    ExecOk(offered, InitialLink(), steps);
    LinkImpliesShipped(offered, Exec(offered, InitialLink(), steps));
  }

  // ---------------------------------------------------------------- the protocol is never stuck

  lemma {:induction false} ExecAppend<T>(offered: nat -> T, l: Link<T>, first: seq<Step>, second: seq<Step>)
    requires Allowed(offered, l, first) && Allowed(offered, Exec(offered, l, first), second)
    ensures Allowed(offered, l, first + second)
    ensures Exec(offered, l, first + second) == Exec(offered, Exec(offered, l, first), second)
    decreases |first|
  {
    if first == [] {
      assert first + second == second;
    } else {
      assert (first + second)[1..] == first[1..] + second;
      ExecAppend(offered, Next(offered, l, first[0]), first[1..], second);
    }
  }

  /** Whatever is in the channels can be lost. */
  lemma Flush<T>(offered: nat -> T, l: Link<T>) returns (steps: seq<Step>)
    ensures |steps| <= 2 && Allowed(offered, l, steps)
    ensures Exec(offered, l, steps) == l.(bits := l.bits.(msg := -1, ack := -1))
  {
    var dropMsg := if l.bits.msg != -1 then [DropMsg] else [];
    var dropAck := if l.bits.ack != -1 then [DropAck] else [];
    var cleared := Exec(offered, l, dropMsg);
    ExecAppend(offered, l, dropMsg, dropAck);
    steps := dropMsg + dropAck;
  }

  lemma SendAndReceive<T>(offered: nat -> T, l: Link<T>)
    requires LinkOk(offered, l) && l.bits.msg == -1 && l.bits.ack == -1 && |l.delivered| == l.acked
    ensures Allowed(offered, l, [SendMsg, ReceiveMsg])
    ensures |Exec(offered, l, [SendMsg, ReceiveMsg]).delivered| == |l.delivered| + 1
  {
    var sent := Next(offered, l, SendMsg);
    assert [SendMsg, ReceiveMsg][1..] == [ReceiveMsg] && [ReceiveMsg][1..] == [];
    assert Exec(offered, sent, [ReceiveMsg]) == Next(offered, sent, ReceiveMsg);
  }

  /** Retransmission recovers a lost acknowledgement. */
  lemma Reacknowledge<T>(offered: nat -> T, l: Link<T>)
    requires LinkOk(offered, l) && l.bits.msg == -1 && l.bits.ack == -1 && |l.delivered| == l.acked + 1
    ensures Allowed(offered, l, [SendMsg, ResendAck, ReceiveAck])
    ensures Exec(offered, l, [SendMsg, ResendAck, ReceiveAck])
            == Link(Bits(1 - l.bits.sender, l.bits.receiver, -1, -1), l.acked + 1, l.acked, l.delivered)
  {
    var a := Next(offered, l, SendMsg);
    var b := Next(offered, a, ResendAck);
    assert [SendMsg, ResendAck, ReceiveAck][1..] == [ResendAck, ReceiveAck];
    assert [ResendAck, ReceiveAck][1..] == [ReceiveAck] && [ReceiveAck][1..] == [];
    assert Allowed(offered, b, [ReceiveAck]) && Exec(offered, b, [ReceiveAck]) == Next(offered, b, ReceiveAck);
    assert Allowed(offered, a, [ResendAck, ReceiveAck]);
    assert Exec(offered, a, [ResendAck, ReceiveAck]) == Exec(offered, b, [ReceiveAck]);
  }

  /** From every reachable state at most seven further steps can deliver the next payload. */
  lemma NeverStuck<T>(offered: nat -> T, run: seq<Step>) returns (more: seq<Step>)
    requires Allowed(offered, InitialLink(), run)
    ensures |more| <= 7 && Allowed(offered, InitialLink(), run + more)
    ensures Count(run + more, ReceiveMsg) == Count(run, ReceiveMsg) + 1
  {
    ExecOk(offered, InitialLink(), run);
    var l := Exec(offered, InitialLink(), run);
    var flush := Flush(offered, l);
    var clear := Exec(offered, l, flush);
    more := flush;
    if |l.delivered| == l.acked + 1 {
      Reacknowledge(offered, clear);
      ExecAppend(offered, l, flush, [SendMsg, ResendAck, ReceiveAck]);
      more := flush + [SendMsg, ResendAck, ReceiveAck];
    }
    var ready := Exec(offered, l, more);
    SendAndReceive(offered, ready);
    ExecAppend(offered, l, more, [SendMsg, ReceiveMsg]);
    more := more + [SendMsg, ReceiveMsg];
    ExecAppend(offered, InitialLink(), run, more);
    ExecOk(offered, InitialLink(), run + more);
  }
}
