/** The session codec as the engine runs it: encoders that append field by field to one buffer, decoders
    that read straight through and check for failure once at the end. */
module Codec {
  import opened Wire
  import opened Protocol

  lemma {:induction false} PrintAllAppend<T>(vs: seq<T>, v: T, printer: T -> Bytes)
    ensures PrintAll(vs + [v], printer) == PrintAll(vs, printer) + printer(v)
  {
    if vs == [] {
      assert vs + [v] == [v];
      assert [v][1..] == [];
    } else {
      assert (vs + [v])[1..] == vs[1..] + [v];
      PrintAllAppend(vs[1..], v, printer);
      Assoc(printer(vs[0]), PrintAll(vs[1..], printer), printer(v));
    }
  }

  /** One more element written behind the others. */
  lemma MoreOf<T>(front: Bytes, vs: seq<T>, i: nat, printer: T -> Bytes)
    requires i < |vs|
    ensures front + PrintAll(vs[..i], printer) + printer(vs[i]) == front + PrintAll(vs[..i + 1], printer)
  {
    PrintAllAppend(vs[..i], vs[i], printer);
    assert vs[..i + 1] == vs[..i] + [vs[i]];
    Assoc(front, PrintAll(vs[..i], printer), printer(vs[i]));
  }

  // ---- encoders ---------------------------------------------------------------------------------

  method PutMessages(w: ByteWriter, messages: seq<WireMessage>)
    modifies w
    ensures w.out == old(w.out) + PrintList(messages, PrintMessage)
  {
    w.PutUint(4, |messages|);
    ghost var front := w.out;
    var i := 0;
    while i < |messages|
      invariant 0 <= i <= |messages|
      invariant w.out == front + PrintAll(messages[..i], PrintMessage)
    {
      var m := messages[i];
      w.PutUint(4, m.number);
      w.PutUint(2, m.kind);
      w.PutInt(8, m.tick);
      w.PutBytes(m.payload);
      Join4(front + PrintAll(messages[..i], PrintMessage), Uint(4, m.number), Uint(2, m.kind), Int(8, m.tick), Run(m.payload));
      MoreOf(front, messages, i, PrintMessage);
      i := i + 1;
    }
    assert messages[..i] == messages;
    Assoc(old(w.out), Uint(4, |messages|), PrintAll(messages, PrintMessage));
  }

  method PutEvents(w: ByteWriter, events: seq<RosterEvent>)
    modifies w
    ensures w.out == old(w.out) + PrintList(events, PrintEvent)
  {
    w.PutUint(4, |events|);
    ghost var front := w.out;
    var i := 0;
    while i < |events|
      invariant 0 <= i <= |events|
      invariant w.out == front + PrintAll(events[..i], PrintEvent)
    {
      var e := events[i];
      w.PutUint(4, e.change);
      w.PutUint(4, e.client.id);
      w.PutBytes(e.client.hello);
      w.PutBytes(e.client.peerEndpoint);
      Join4(front + PrintAll(events[..i], PrintEvent), Uint(4, e.change), Uint(4, e.client.id), Run(e.client.hello), Run(e.client.peerEndpoint));
      MoreOf(front, events, i, PrintEvent);
      i := i + 1;
    }
    assert events[..i] == events;
    Assoc(old(w.out), Uint(4, |events|), PrintAll(events, PrintEvent));
  }

  lemma Join4(x: Bytes, a: Bytes, b: Bytes, c: Bytes, d: Bytes)
    ensures x + a + b + c + d == x + (a + (b + (c + d)))
  {
  }

  method EncodeJoinRequest(r: JoinRequest) returns (out: Bytes)
    ensures out == PrintJoinRequest(r)
  {
    var w := new ByteWriter();
    w.PutUint(1, JOIN);
    w.PutUint(8, r.token);
    w.PutBytes(r.hello);
    w.PutBytes(r.peerEndpoint);
    Join4([], Uint(1, JOIN), Uint(8, r.token), Run(r.hello), Run(r.peerEndpoint));
    out := w.out;
  }

  method EncodeJoinReply(r: JoinReply) returns (out: Bytes)
    ensures out == PrintJoinReply(r)
  {
    var w := new ByteWriter();
    w.PutUint(1, r.status);
    w.PutUint(4, r.id);
    w.PutInt(4, r.updatePort);
    out := w.out;
    assert [] + Uint(1, r.status) + Uint(4, r.id) + Int(4, r.updatePort) == PrintJoinReply(r);
  }

  method EncodeUpdateRequest(r: UpdateRequest) returns (out: Bytes)
    ensures out == PrintUpdateRequest(r)
  {
    var w := new ByteWriter();
    w.PutUint(1, r.kind);
    w.PutUint(4, r.id);
    w.PutInt(8, r.tick);
    w.PutUint(4, r.ackSeq);
    w.PutUint(4, r.rosterVersion);
    ghost var front := w.out;
    w.PutUint(1, Flag(r.hasState));
    if r.hasState {
      w.PutBytes(r.state);
    }
    assert w.out == front + PrintOptional(r.hasState, Run(r.state)) by {
      Assoc(front, Uint(1, Flag(r.hasState)), if r.hasState then Run(r.state) else []);
    }
    PutMessages(w, r.messages);
    out := w.out;
    ghost var rest := PrintOptional(r.hasState, Run(r.state)) + PrintList(r.messages, PrintMessage);
    Assoc(front, PrintOptional(r.hasState, Run(r.state)), PrintList(r.messages, PrintMessage));
    assert out == front + rest;
    Join5(Uint(1, r.kind), Uint(4, r.id), Int(8, r.tick), Uint(4, r.ackSeq), Uint(4, r.rosterVersion), rest);
  }

  lemma Join5(a: Bytes, b: Bytes, c: Bytes, d: Bytes, e: Bytes, f: Bytes)
    ensures [] + a + b + c + d + e + f == a + (b + (c + (d + (e + f))))
  {
    assert [] + a == a;
    Join4(a, b, c, d, e);
    Assoc(a, b + (c + (d + e)), f);
    Assoc(b, c + (d + e), f);
    Assoc(c, d + e, f);
    Assoc(d, e, f);
  }

  method EncodeUpdateReply(r: UpdateReply) returns (out: Bytes)
    ensures out == PrintUpdateReply(r)
  {
    var w := new ByteWriter();
    w.PutUint(1, r.status);
    w.PutUint(4, r.ackSeq);
    w.PutUint(4, r.rosterVersion);
    PutEvents(w, r.rosterEvents);
    PutMessages(w, r.messages);
    ghost var front := w.out;
    w.PutUint(1, Flag(r.hasSnapshot));
    if r.hasSnapshot {
      w.PutInt(8, r.snapshotTick);
      w.PutBytes(r.snapshot);
    }
    out := w.out;
    ghost var last := PrintOptional(r.hasSnapshot, Int(8, r.snapshotTick) + Run(r.snapshot));
    assert out == front + last;
    Join5(Uint(1, r.status), Uint(4, r.ackSeq), Uint(4, r.rosterVersion), PrintList(r.rosterEvents, PrintEvent),
          PrintList(r.messages, PrintMessage), last);
  }

  method EncodeSnapshot(tick: int, payload: Bytes) returns (out: Bytes)
    ensures out == PrintSnapshot(tick, payload)
  {
    var w := new ByteWriter();
    w.PutInt(8, tick);
    w.PutBytes(payload);
    out := w.out;
  }

  // ---- decoders ---------------------------------------------------------------------------------

  lemma OneOf<T>(parse: Bytes -> Parsed<T>, s: Bytes)
    ensures GetAll(1, parse, s) == if parse(s).Parse? then Parse([parse(s).value], parse(s).rest) else NoParse
  {
    if parse(s).Parse? {
      assert GetAll(0, parse, parse(s).rest) == Parse([], parse(s).rest);
      assert [parse(s).value] + [] == [parse(s).value];
    }
  }

  /** One more element of a list, or no list at all. */
  lemma NextOf<T>(parse: Bytes -> Parsed<T>, n: nat, i: nat, s: Bytes, vs: seq<T>, before: Bytes)
    requires i < n && GetAll(i, parse, s) == Parse(vs, before)
    ensures if parse(before).Parse?
      then GetAll(i + 1, parse, s) == Parse(vs + [parse(before).value], parse(before).rest)
      else GetAll(n, parse, s).NoParse?
  {
    AllSplits(n, i, parse, s);
    AllSplits(i + 1, i, parse, s);
    OneOf(parse, before);
  }

  /** Reads element i of n and pushes it. */
  method NextMessage(reader: ByteReader, ghost n: nat, ghost i: nat, ghost s: Bytes, before: seq<WireMessage>) returns (after: seq<WireMessage>)
    requires reader.Valid() && reader.ok && i < n && GetAll(i, ParseMessage, s) == Parse(before, reader.Rest())
    modifies reader
    ensures reader.Valid()
    ensures if reader.ok then GetAll(i + 1, ParseMessage, s) == Parse(after, reader.Rest()) else GetAll(n, ParseMessage, s).NoParse?
  {
    NextOf(ParseMessage, n, i, s, before, reader.Rest());
    var number := reader.ReadUint(4, 0);
    var kind := reader.ReadUint(2, 0);
    var tick := reader.ReadInt(8, 0);
    var payload := reader.ReadBytes([]);
    after := before + [WireMessage(number, kind, tick, payload)];
  }

  /** Reads element i of n and pushes it. */
  method NextEvent(reader: ByteReader, ghost n: nat, ghost i: nat, ghost s: Bytes, before: seq<RosterEvent>) returns (after: seq<RosterEvent>)
    requires reader.Valid() && reader.ok && i < n && GetAll(i, ParseEvent, s) == Parse(before, reader.Rest())
    modifies reader
    ensures reader.Valid()
    ensures if reader.ok then GetAll(i + 1, ParseEvent, s) == Parse(after, reader.Rest()) else GetAll(n, ParseEvent, s).NoParse?
  {
    NextOf(ParseEvent, n, i, s, before, reader.Rest());
    var change := reader.ReadUint(4, 0);
    var id := reader.ReadUint(4, 0);
    var hello := reader.ReadBytes([]);
    var peerEndpoint := reader.ReadBytes([]);
    after := before + [RosterEvent(change, ClientInfo(id, hello, peerEndpoint))];
  }

  /** The loop stops at the first failed element, having pushed whatever that read left behind; its result
      is only looked at when the reader is still ok. */
  method LoopMessages(reader: ByteReader, count: nat) returns (messages: seq<WireMessage>)
    requires reader.Valid() && reader.ok
    modifies reader
    ensures reader.Valid()
    ensures if reader.ok then GetAll(count, ParseMessage, old(reader.Rest())) == Parse(messages, reader.Rest())
      else GetAll(count, ParseMessage, old(reader.Rest())).NoParse?
  {
    messages := [];
    ghost var s := reader.Rest();
    var i := 0;
    while i < count && reader.ok
      invariant reader.Valid() && 0 <= i <= count
      invariant reader.ok ==> GetAll(i, ParseMessage, s) == Parse(messages, reader.Rest())
      invariant !reader.ok ==> GetAll(count, ParseMessage, s).NoParse?
    {
      messages := NextMessage(reader, count, i, s, messages);
      i := i + 1;
    }
  }

  method GetMessages(reader: ByteReader) returns (messages: seq<WireMessage>)
    requires reader.Valid()
    modifies reader
    ensures reader.Valid()
    ensures var p := GetList(ParseMessage, old(reader.Rest()));
            if old(reader.ok) && p.Parse? then reader.ok && messages == p.value && reader.Rest() == p.rest else !reader.ok
  {
    messages := [];
    var count := reader.ReadUint(4, 0);
    if reader.ok {
      messages := LoopMessages(reader, count);
    }
  }

  method LoopEvents(reader: ByteReader, count: nat) returns (events: seq<RosterEvent>)
    requires reader.Valid() && reader.ok
    modifies reader
    ensures reader.Valid()
    ensures if reader.ok then GetAll(count, ParseEvent, old(reader.Rest())) == Parse(events, reader.Rest())
      else GetAll(count, ParseEvent, old(reader.Rest())).NoParse?
  {
    events := [];
    ghost var s := reader.Rest();
    var i := 0;
    while i < count && reader.ok
      invariant reader.Valid() && 0 <= i <= count
      invariant reader.ok ==> GetAll(i, ParseEvent, s) == Parse(events, reader.Rest())
      invariant !reader.ok ==> GetAll(count, ParseEvent, s).NoParse?
    {
      events := NextEvent(reader, count, i, s, events);
      i := i + 1;
    }
  }

  method GetEvents(reader: ByteReader) returns (events: seq<RosterEvent>)
    requires reader.Valid()
    modifies reader
    ensures reader.Valid()
    ensures var p := GetList(ParseEvent, old(reader.Rest()));
            if old(reader.ok) && p.Parse? then reader.ok && events == p.value && reader.Rest() == p.rest else !reader.ok
  {
    events := [];
    var count := reader.ReadUint(4, 0);
    if reader.ok {
      events := LoopEvents(reader, count);
    }
  }

  method ReadJoinRequest(data: Bytes) returns (ok: bool, r: JoinRequest)
    ensures ok == DecodeJoinRequest(data).Message?
    ensures ok ==> r == DecodeJoinRequest(data).value
  {
    var reader := new ByteReader(data);
    var kind := reader.ReadUint(1, 0);
    var token := reader.ReadUint(8, 0);
    var hello := reader.ReadBytes([]);
    var peerEndpoint := reader.ReadBytes([]);
    r := JoinRequest(token, hello, peerEndpoint);
    ok := reader.ok && reader.AtEnd() && kind == JOIN;
  }

  method ReadJoinReply(data: Bytes) returns (ok: bool, r: JoinReply)
    ensures ok == DecodeJoinReply(data).Message?
    ensures ok ==> r == DecodeJoinReply(data).value
  {
    var reader := new ByteReader(data);
    var status := reader.ReadUint(1, REJECTED);
    var id := reader.ReadUint(4, SERVER_ID);
    var updatePort := reader.ReadInt(4, 0);
    r := JoinReply(status, id, updatePort);
    ok := reader.ok && reader.AtEnd();
  }

  method ReadRequestFront(reader: ByteReader) returns (r: UpdateRequest)
    requires reader.Valid()
    modifies reader
    ensures reader.Valid()
    ensures var p := ParseRequestFront(old(reader.Rest()));
            if old(reader.ok) && p.Parse? then reader.ok && r == p.value && reader.Rest() == p.rest else !reader.ok
  {
    var kind := reader.ReadUint(1, UPDATE);
    var id := reader.ReadUint(4, SERVER_ID);
    var tick := reader.ReadInt(8, 0);
    var ackSeq := reader.ReadUint(4, 0);
    var rosterVersion := reader.ReadUint(4, 0);
    r := UpdateRequest(kind, id, tick, ackSeq, rosterVersion, false, [], []);
  }

  method ReadUpdateRequest(data: Bytes) returns (ok: bool, r: UpdateRequest)
    ensures ok == DecodeUpdateRequest(data).Message?
    ensures ok ==> r == DecodeUpdateRequest(data).value
  {
    var reader := new ByteReader(data);
    var front := ReadRequestFront(reader);
    var hasState := reader.ReadUint(1, 0);
    var state := [];
    if hasState != 0 {
      state := reader.ReadBytes(state);
    }
    var messages := GetMessages(reader);
    r := front.(hasState := hasState != 0, state := state, messages := messages);
    ok := reader.ok && reader.AtEnd() && (r.kind == UPDATE || r.kind == LEAVE);
  }

  method ReadUpdateReply(data: Bytes) returns (ok: bool, r: UpdateReply)
    ensures ok == DecodeUpdateReply(data).Message?
    ensures ok ==> r == DecodeUpdateReply(data).value
  {
    var reader := new ByteReader(data);
    var status := reader.ReadUint(1, OK);
    var ackSeq := reader.ReadUint(4, 0);
    var rosterVersion := reader.ReadUint(4, 0);
    assert if ParseReplyFront(data).Parse?
      then reader.ok && Parse(UpdateReply(status, ackSeq, rosterVersion, [], [], false, 0, []), reader.Rest()) == ParseReplyFront(data)
      else !reader.ok;
    var rosterEvents := GetEvents(reader);
    var messages := GetMessages(reader);
    var hasSnapshot := reader.ReadUint(1, 0);
    var snapshotTick, snapshot := 0, [];
    if hasSnapshot != 0 {
      snapshotTick := reader.ReadInt(8, snapshotTick);
      snapshot := reader.ReadBytes(snapshot);
    }
    r := UpdateReply(status, ackSeq, rosterVersion, rosterEvents, messages, hasSnapshot != 0, snapshotTick, snapshot);
    ok := reader.ok && reader.AtEnd();
  }

  method ReadSnapshot(data: Bytes) returns (ok: bool, state: ReceivedState)
    ensures ok == DecodeSnapshot(data).Message?
    ensures ok ==> state == DecodeSnapshot(data).value
  {
    var reader := new ByteReader(data);
    var tick := reader.ReadInt(8, 0);
    var payload := reader.ReadBytes([]);
    state := ReceivedState(SERVER_ID, tick, payload);
    ok := reader.ok && reader.AtEnd();
  }
}
