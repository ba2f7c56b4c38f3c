/** Reliable ordered messages by cumulative acknowledgement: the sender keeps and resends what is not yet
    acknowledged, the receiver takes only the next number. Used in both directions of a session. */
module Reliable {
  import opened Protocol

  /** What a receiver that has last messages takes out of a batch. */
  function Accepted(last: nat, ms: seq<WireMessage>): seq<WireMessage>
    decreases |ms|
  {
    if ms == [] then []
    else if ms[0].number == last + 1 then [ms[0]] + Accepted(last + 1, ms[1..])
    else Accepted(last, ms[1..])
  }

  /** What stays in an outbox after an acknowledgement. */
  function Unacked(outbox: seq<WireMessage>, ack: nat): seq<WireMessage> {
    if outbox != [] && outbox[0].number <= ack then Unacked(outbox[1..], ack) else outbox
  }

  function Delivery(from: nat, m: WireMessage): ReceivedMessage {
    ReceivedMessage(from, m.kind, m.tick, m.payload)
  }

  /** What the application gets for a run of wire messages. */
  function Deliver(from: nat, ms: seq<WireMessage>): (r: seq<ReceivedMessage>)
    ensures |r| == |ms|
  {
    seq(|ms|, i requires 0 <= i < |ms| => Delivery(from, ms[i]))
  }

  /** A message arrives with its sender's id and everything that was sent. */
  ghost predicate Arrived(from: nat, m: WireMessage, r: ReceivedMessage) {
    r.from == from && r.kind == m.kind && r.tick == m.tick && r.payload == m.payload
  }

  lemma DeliverArrives(from: nat, ms: seq<WireMessage>)
    ensures forall i :: 0 <= i < |ms| ==> Arrived(from, ms[i], Deliver(from, ms)[i])
  {
  }

  lemma DeliverMore(from: nat, ms: seq<WireMessage>, m: WireMessage)
    ensures Deliver(from, ms + [m]) == Deliver(from, ms) + [Delivery(from, m)]
  {
  }

  lemma HandedOver(from: nat, inbox: seq<ReceivedMessage>, ms: seq<WireMessage>, inbox': seq<ReceivedMessage>)
    requires inbox' == inbox + Deliver(from, ms)
    ensures |inbox'| == |inbox| + |ms| && inbox'[..|inbox|] == inbox
    ensures forall i :: 0 <= i < |ms| ==> Arrived(from, ms[i], inbox'[|inbox| + i])
  {
    DeliverArrives(from, ms);
  }

  lemma AcceptedOneMore(last: nat, taken: seq<WireMessage>, ms: seq<WireMessage>, i: nat)
    requires i < |ms|
    ensures taken + Accepted(last, ms[i..]) ==
      if ms[i].number == last + 1 then (taken + [ms[i]]) + Accepted(last + 1, ms[i + 1..]) else taken + Accepted(last, ms[i + 1..])
  {
    assert ms[i..][1..] == ms[i + 1..];
  }

  /** The accept loop of both sides, for an inbox of the caller's. */
  method AcceptMessages(from: nat, last: nat, ms: seq<WireMessage>, inbox: seq<ReceivedMessage>)
    returns (last': nat, inbox': seq<ReceivedMessage>)
    ensures last' == last + |Accepted(last, ms)|
    ensures inbox' == inbox + Deliver(from, Accepted(last, ms))
    ensures |inbox'| == |inbox| + |Accepted(last, ms)| && inbox'[..|inbox|] == inbox
    ensures forall i :: 0 <= i < |Accepted(last, ms)| ==>
      var m, r := Accepted(last, ms)[i], inbox'[|inbox| + i];
      r.from == from && r.kind == m.kind && r.tick == m.tick && r.payload == m.payload
  {
    last', inbox' := last, inbox;
    ghost var taken: seq<WireMessage> := [];
    var i := 0;
    while i < |ms|
      invariant 0 <= i <= |ms|
      invariant last' == last + |taken| && inbox' == inbox + Deliver(from, taken)
      invariant Accepted(last, ms) == taken + Accepted(last', ms[i..])
    {
      var m := ms[i];
      AcceptedOneMore(last', taken, ms, i);
      if m.number == last' + 1 {
        inbox' := inbox' + [Delivery(from, m)];
        last' := m.number;
        DeliverMore(from, taken, m);
        taken := taken + [m];
      }
      i := i + 1;
    }
    assert Accepted(last, ms) == taken;
    HandedOver(from, inbox, taken, inbox');
  }

  method DropAcknowledged(outbox: seq<WireMessage>, ack: nat) returns (rest: seq<WireMessage>)
    ensures rest == Unacked(outbox, ack)
  {
    rest := outbox;
    while rest != [] && rest[0].number <= ack
      invariant Unacked(rest, ack) == Unacked(outbox, ack)
    {
      rest := rest[1..];
    }
  }

  // ---- against the sender's history ---------------------------------------------------------------

  /** Everything a sender ever sent, in order: numbers 1, 2, 3, ... */
  ghost predicate Numbered(sent: seq<WireMessage>) {
    forall i :: 0 <= i < |sent| ==> sent[i].number == i + 1
  }

  /** A batch of messages that were really sent, in whatever order and multiplicity. */
  ghost predicate Drawn(ms: seq<WireMessage>, sent: seq<WireMessage>) {
    forall i :: 0 <= i < |ms| ==> 1 <= ms[i].number <= |sent| && sent[ms[i].number - 1] == ms[i]
  }

  /** Whatever batch arrives, the receiver extends its prefix of the history and nothing else. */
  lemma {:induction false} AcceptedContinues(last: nat, ms: seq<WireMessage>, sent: seq<WireMessage>)
    requires Drawn(ms, sent) && last <= |sent|
    ensures var n := last + |Accepted(last, ms)|;
      n <= |sent| && Accepted(last, ms) == sent[last..n]
    decreases |ms|
  {
    if ms != [] {
      var rest := ms[1..];
      assert forall i :: 0 <= i < |rest| ==> rest[i] == ms[i + 1];
      if ms[0].number == last + 1 {
        AcceptedContinues(last + 1, rest, sent);
        assert sent[last..][0] == ms[0];
      } else {
        AcceptedContinues(last, rest, sent);
      }
    }
  }

  /** A contiguous batch that reaches back far enough is taken up to its end. */
  lemma {:induction false} AcceptedReaches(last: nat, a: nat, b: nat, sent: seq<WireMessage>)
    requires Numbered(sent) && a <= last && a <= b <= |sent| && last <= |sent|
    ensures last + |Accepted(last, sent[a..b])| == if last <= b then b else last
    decreases b - a
  {
    if a < b {
      assert sent[a..b][0] == sent[a] && sent[a..b][1..] == sent[a + 1..b];
      if a == last {
        AcceptedReaches(last + 1, a + 1, b, sent);
      } else {
        AcceptedReaches(last, a + 1, b, sent);
      }
    }
  }

  /** An outbox is the history after some acknowledged point; an acknowledgement moves that point up. */
  lemma {:induction false} UnackedIsTail(sent: seq<WireMessage>, acked: nat, ack: nat)
    requires Numbered(sent) && acked <= |sent| && ack <= |sent|
    ensures Unacked(sent[acked..], ack) == sent[if acked <= ack then ack else acked..]
    decreases |sent| - acked
  {
    if acked < |sent| && sent[acked].number <= ack {
      assert sent[acked..][1..] == sent[acked + 1..];
      UnackedIsTail(sent, acked + 1, ack);
    }
  }

  lemma TailIsDrawn(sent: seq<WireMessage>, acked: nat)
    requires Numbered(sent) && acked <= |sent|
    ensures Drawn(sent[acked..], sent)
  {
  }

  // ---- what one sender's messages look like in a shared inbox -------------------------------------

  /** The messages of one sender, in order. */
  function From(id: nat, inbox: seq<ReceivedMessage>): seq<ReceivedMessage> {
    if inbox == [] then [] else
    var rest := From(id, inbox[..|inbox| - 1]);
    if inbox[|inbox| - 1].from == id then rest + [inbox[|inbox| - 1]] else rest
  }

  lemma {:induction false} FromConcat(id: nat, a: seq<ReceivedMessage>, b: seq<ReceivedMessage>)
    ensures From(id, a + b) == From(id, a) + From(id, b)
    decreases |b|
  {
    if b == [] {
      assert a + b == a;
    } else {
      var k := |b| - 1;
      assert (a + b)[..|a + b| - 1] == a + b[..k];
      assert (a + b)[|a + b| - 1] == b[k];
      FromConcat(id, a, b[..k]);
    }
  }

  lemma {:induction false} FromDelivery(id: nat, from: nat, ms: seq<WireMessage>)
    ensures From(id, Deliver(from, ms)) == if id == from then Deliver(from, ms) else []
    decreases |ms|
  {
    if ms != [] {
      var k := |ms| - 1;
      var d := Deliver(from, ms);
      assert d[..k] == Deliver(from, ms[..k]);
      FromDelivery(id, from, ms[..k]);
      assert d == d[..k] + [d[k]];
    }
  }

  lemma DeliverConcat(from: nat, a: seq<WireMessage>, b: seq<WireMessage>)
    ensures Deliver(from, a + b) == Deliver(from, a) + Deliver(from, b)
  {
  }
}
