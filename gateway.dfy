/** The aggregator's device sessions (AggregatorApp/Program.cs,
    `TratarWavy`). A session reads one frame at a time, splits it on `;`,
    dispatches on the first field and answers with a fixed reply. Its only
    state is the device ID, which starts empty. A `DATA` frame is written to
    the sensor's ledger and then forwarded to the central collector; the
    session ends at `BYE`, at a zero-byte read, or when a missing field
    raises an exception that the session boundary catches.

    `Handle` is one step, `Run` the whole session as a function of its
    frames, and `Serve` the loop the aggregator runs, proved against `Run`. */
module Gateway {
  import opened Text
  import opened Ledger
  import Collector

  // The replies a session sends to the device.
  const HelloAck: string := "HELLO_ACK"
  const RegisterAck: string := "REGISTER_ACK"
  const ByeAck: string := "BYE_ACK"
  const Ack: string := "ACK"
  // A `DATA` frame is answered with the collector's own reply, `Collector.Received`.

  datatype Option<T> = None | Some(value: T)

  /** A reading taken from a `DATA` frame. */
  datatype Reading = Reading(device: string, sensor: string, value: string)

  /** The effect of one frame on a session. */
  datatype Outcome =
    | Continue(id: string, reply: string, reading: Option<Reading>)  // reply, go on with `id`
    | Close(reply: string)                                           // reply, then end
    | Fault                                                          // missing field: end, no reply

  /** The command of a frame: its first `;`-separated field. */
  function Command(text: string): string
  {
    Split(text, Sep)[0]
  }

  /** The fixed reply of each command (AggregatorApp/Program.cs:63-97). */
  function ReplyTo(command: string): string
  {
    if command == "HELLO" then HelloAck
    else if command == "REGISTER" then RegisterAck
    else if command == "DATA" then Collector.Received
    else if command == "BYE" then ByeAck
    else Ack
  }

  /** One frame of a session whose device ID is `id`. */
  function Handle(id: string, text: string): (o: Outcome)
    // the reply depends on the command alone
    ensures o.Continue? || o.Close? ==> o.reply == ReplyTo(Command(text))
    ensures o.Close? <==> Command(text) == "BYE"
    // only a missing field makes the step fail
    ensures o.Fault? <==> (Command(text) == "HELLO" && |Split(text, Sep)| < 2) ||
                          (Command(text) == "DATA" && |Split(text, Sep)| < 3)
    // only HELLO changes the device ID; only DATA yields a reading, under the current ID
    ensures o.Continue? && o.id != id ==> Command(text) == "HELLO"
    ensures o.Continue? && o.reading.Some? ==> Command(text) == "DATA" && o.reading.value.device == id
  {
    var fields := Split(text, Sep);
    if fields[0] == "HELLO" then
      if |fields| < 2 then Fault else Continue(fields[1], HelloAck, None)
    else if fields[0] == "REGISTER" then
      Continue(id, RegisterAck, None)
    else if fields[0] == "DATA" then
      if |fields| < 3 then Fault else Continue(id, Collector.Received, Some(Reading(id, fields[1], fields[2])))
    else if fields[0] == "BYE" then
      Close(ByeAck)
    else
      Continue(id, Ack, None)
  }

  /** `HELLO;<id>` binds the session to `<id>`, whatever it was bound to
      and whatever fields follow `<id>`. */
  lemma HelloBindsId(id: string, device: string, rest: string)
    requires Sep !in device
    requires rest == [] || rest[0] == Sep
    ensures Handle(id, "HELLO;" + device + rest) == Continue(device, HelloAck, None)
  {
    assert "HELLO;" + device + rest == "HELLO" + [Sep] + (device + rest);
    SplitAfterField("HELLO", Sep, device + rest);
    LeadingField(device, Sep, rest);
  }

  /** `HELLO` without a device ID fails the session. */
  lemma HelloWithoutIdFails(id: string)
    ensures Handle(id, "HELLO") == Fault
  {
    SplitSingle("HELLO", Sep);
  }

  /** `DATA;<sensor>;<value>` yields the reading of the session's device,
      whatever the sensor, the value and any fields after the value are,
      and the reply `RECEIVED`. */
  lemma DataYieldsReading(id: string, sensor: string, value: string, rest: string)
    requires Sep !in sensor && Sep !in value
    requires rest == [] || rest[0] == Sep
    ensures Handle(id, "DATA;" + sensor + ";" + value + rest) == Continue(id, Collector.Received, Some(Reading(id, sensor, value)))
  {
    assert "DATA;" + sensor + ";" + value + rest == "DATA" + [Sep] + (sensor + [Sep] + (value + rest));
    SplitAfterField("DATA", Sep, sensor + [Sep] + (value + rest));
    SplitAfterField(sensor, Sep, value + rest);
    LeadingField(value, Sep, rest);
  }

  /** `DATA` with fewer than three fields fails the session. */
  lemma DataWithoutValueFails(id: string, sensor: string)
    requires Sep !in sensor
    ensures Handle(id, "DATA") == Fault
    ensures Handle(id, "DATA;" + sensor) == Fault
  {
    SplitSingle("DATA", Sep);
    SplitJoin(["DATA", sensor], Sep);
    assert Join(["DATA", sensor], Sep) == "DATA;" + sensor by {
      assert ["DATA", sensor][1..] == [sensor];
    }
  }

  /** `REGISTER` only acknowledges: the device ID stays and nothing is
      written. */
  lemma RegisterOnlyAcknowledges(id: string, text: string)
    requires Command(text) == "REGISTER"
    ensures Handle(id, text) == Continue(id, RegisterAck, None)
  {
  }

  /** An unknown command is acknowledged and changes nothing. */
  lemma UnknownCommandAcknowledged(id: string, text: string)
    requires Command(text) !in {"HELLO", "REGISTER", "DATA", "BYE"}
    ensures Handle(id, text) == Continue(id, Ack, None)
  {
  }

  /** The message forwarded to the collector for a reading. */
  function ForwardMessage(r: Reading): string
  {
    "AGG_DATA;" + r.device + ";" + r.sensor + ";" + r.value
  }

  /** Every forwarded message passes the collector's filter. */
  lemma ForwardAccepted(r: Reading)
    ensures Collector.Accepts(ForwardMessage(r))
  {
    var m := ForwardMessage(r);
    assert m == Collector.DataPrefix + (r.device + ";" + r.sensor + ";" + r.value);
    assert m[..|Collector.DataPrefix|] == Collector.DataPrefix;
  }

  /** A forwarded message splits back into the tag and the reading's fields
      when those hold no `;`, as they never do when they come from a
      split frame. */
  lemma ForwardMessageFields(r: Reading)
    requires SepFree([r.device, r.sensor, r.value], Sep)
    ensures Split(ForwardMessage(r), Sep) == ["AGG_DATA", r.device, r.sensor, r.value]
  {
    var fields := ["AGG_DATA", r.device, r.sensor, r.value];
    assert SepFree(fields, Sep) by {
      assert fields[1..] == [r.device, r.sensor, r.value];
    }
    SplitJoin(fields, Sep);
    assert fields[1..] == [r.device, r.sensor, r.value];
    assert [r.device, r.sensor, r.value][1..] == [r.sensor, r.value];
    assert [r.sensor, r.value][1..] == [r.value];
    var tail := r.sensor + ";" + r.value;
    assert Join([r.sensor, r.value], Sep) == tail;
    assert Join([r.device, r.sensor, r.value], Sep) == r.device + ";" + tail;
    assert Join(fields, Sep) == "AGG_DATA;" + (r.device + ";" + tail);
    assert ForwardMessage(r) == "AGG_DATA;" + (r.device + ";" + tail);
  }

  /** What happens to a forwarded message downstream: the collector cannot
      be reached, or it handles the message at its own clock reading `at`,
      and its log append succeeds or not. */
  datatype Downstream = Unreachable | Delivered(at: string, writable: bool)

  /** A message handed to the forwarder, with its downstream fate. */
  datatype Relay = Relay(message: string, fate: Downstream)

  /** The collector's log after one forwarded message. */
  function Collected(log: seq<string>, r: Relay): seq<string>
  {
    match r.fate
    case Unreachable => log
    case Delivered(at, writable) => Collector.Logged(log, r.message, at, writable)
  }

  /** The collector's log after the forwarded messages `rs`, in order. */
  function Deliver(log: seq<string>, rs: seq<Relay>): seq<string>
    decreases |rs|
  {
    if rs == [] then log else Collected(Deliver(log, rs[..|rs| - 1]), rs[|rs| - 1])
  }

  /** Delivering one more message is collecting it. */
  lemma DeliverSnoc(log: seq<string>, rs: seq<Relay>, r: Relay)
    ensures Deliver(log, rs + [r]) == Collected(Deliver(log, rs), r)
  {
    assert (rs + [r])[..|rs|] == rs;
  }

  /** Delivering two batches of messages one after the other is
      delivering them together. */
  lemma {:induction false} DeliverConcat(log: seq<string>, a: seq<Relay>, b: seq<Relay>)
    ensures Deliver(log, a + b) == Deliver(Deliver(log, a), b)
    decreases |b|
  {
    if b == [] {
      assert a + b == a;
    } else {
      var c := a + b;
      assert c[..|c| - 1] == a + b[..|b| - 1];
      assert c[|c| - 1] == b[|b| - 1];
      DeliverConcat(log, a, b[..|b| - 1]);
    }
  }

  /** The log lines a sequence of accepted messages should add: one per
      message that reached the collector and was saved. */
  function LinesOf(rs: seq<Relay>): seq<string>
    decreases |rs|
  {
    if rs == [] then []
    else
      var r := rs[|rs| - 1];
      LinesOf(rs[..|rs| - 1]) +
      (match r.fate
       case Unreachable => []
       case Delivered(at, writable) => if writable then [Collector.LogLine(at, r.message)] else [])
  }

  /** When every message is accepted, the collector's log grows by exactly
      the lines of the delivered and saved messages, in order. */
  lemma {:induction false} DeliverAppends(log: seq<string>, rs: seq<Relay>)
    requires forall k :: 0 <= k < |rs| ==> Collector.Accepts(rs[k].message)
    ensures Deliver(log, rs) == log + LinesOf(rs)
    decreases |rs|
  {
    if rs != [] {
      var init, r := rs[..|rs| - 1], rs[|rs| - 1];
      DeliverAppends(log, init);
      assert Collector.Accepts(r.message);
      assert log + LinesOf(init) + [] == log + LinesOf(init);
      ConcatAssoc(log, LinesOf(init), LinesOf(rs)[|LinesOf(init)|..]);
      assert LinesOf(rs) == LinesOf(init) + LinesOf(rs)[|LinesOf(init)|..];
    }
  }

  /** Hands `message` to the collector. Any failure to reach it is caught
      and only reported on the console; the collector's reply is only
      logged. */
  method Forward(central: Collector.CentralLog, message: string, fate: Downstream)
    modifies central
    ensures central.lines == Collected(old(central.lines), Relay(message, fate))
  {
    match fate
    case Unreachable =>
    case Delivered(at, writable) =>
      var _ := central.HandleClient(message, at, writable);
  }

  /** One read of the session: the text received, the aggregator's clock
      reading while it is handled, and the fate of the message forwarded
      for it, if any. An empty text is a zero-byte read. */
  datatype Frame = Frame(text: string, now: string, fate: Downstream)

  /** What a session does with its frames: the replies sent, the ledger
      writes and the forwarded messages in order, and whether it has ended
      (otherwise it is still waiting for the next frame). */
  datatype Trace = Trace(replies: seq<string>, writes: seq<Write>, relays: seq<Relay>, ended: bool)

  /** The trace `t` preceded by what happened before it. */
  function Then(done: Trace, t: Trace): Trace
  {
    Trace(done.replies + t.replies, done.writes + t.writes, done.relays + t.relays, t.ended)
  }

  /** What one frame that keeps the session going produces: its reply and,
      for a reading, one ledger write and one forwarded message. */
  function StepTrace(o: Outcome, f: Frame): Trace
    requires o.Continue?
  {
    match o.reading
    case None => Trace([o.reply], [], [], false)
    case Some(r) =>
      Trace([o.reply], [Write(r.sensor, r.device, r.value, f.now)], [Relay(ForwardMessage(r), f.fate)], false)
  }

  /** A session whose device ID is `id` receiving `frames`. */
  function Run(id: string, frames: seq<Frame>): Trace
    decreases |frames|
  {
    if frames == [] then Trace([], [], [], false)
    else
      var f := frames[0];
      if f.text == "" then Trace([], [], [], true)
      else
        var o := Handle(id, f.text);
        match o
        case Fault => Trace([], [], [], true)
        case Close(reply) => Trace([reply], [], [], true)
        case Continue(next, _, _) => Then(StepTrace(o, f), Run(next, frames[1..]))
  }

  lemma ThenAssoc(a: Trace, b: Trace, c: Trace)
    ensures Then(Then(a, b), c) == Then(a, Then(b, c))
  {
    assert (a.replies + b.replies) + c.replies == a.replies + (b.replies + c.replies);
    assert (a.writes + b.writes) + c.writes == a.writes + (b.writes + c.writes);
    assert (a.relays + b.relays) + c.relays == a.relays + (b.relays + c.relays);
  }

  /** Unfolds `Run` at a frame that keeps the session going. */
  lemma RunContinues(id: string, f: Frame, later: seq<Frame>)
    requires f.text != "" && Handle(id, f.text).Continue?
    ensures Run(id, [f] + later) == Then(StepTrace(Handle(id, f.text), f), Run(Handle(id, f.text).id, later))
  {
    assert ([f] + later)[0] == f && ([f] + later)[1..] == later;
  }

  lemma ThenStop(done: Trace, last: seq<string>)
    ensures Then(done, Trace(last, [], [], true)) == Trace(done.replies + last, done.writes, done.relays, true)
  {
    assert done.writes + [] == done.writes && done.relays + [] == done.relays;
  }

  lemma ThenNothing(done: Trace)
    ensures Then(done, Trace([], [], [], false)) == done.(ended := false)
  {
    assert done.replies + [] == done.replies;
    assert done.writes + [] == done.writes && done.relays + [] == done.relays;
  }

  /** Once a session has ended, later frames change nothing: after `BYE`,
      a zero-byte read or a failed frame no frame is processed. */
  lemma {:induction false} EndedIgnoresLaterFrames(id: string, frames: seq<Frame>, later: seq<Frame>)
    requires Run(id, frames).ended
    ensures Run(id, frames + later) == Run(id, frames)
    decreases |frames|
  {
    var all := frames + later;
    assert all[0] == frames[0];
    match Handle(id, frames[0].text)
    case Fault =>
    case Close(_) =>
    case Continue(next, _, _) =>
      if frames[0].text != "" {
        assert all[1..] == frames[1..] + later;
        EndedIgnoresLaterFrames(next, frames[1..], later);
      }
  }

  /** `BYE` is answered with `BYE_ACK` and ends the session. */
  lemma ByeEndsSession(id: string, f: Frame, later: seq<Frame>)
    requires Command(f.text) == "BYE"
    ensures Run(id, [f] + later) == Trace([ByeAck], [], [], true)
  {
    assert ([f] + later)[0] == f;
  }

  /** A zero-byte read ends the session without a reply. */
  lemma EmptyReadEndsSession(id: string, f: Frame, later: seq<Frame>)
    requires f.text == ""
    ensures Run(id, [f] + later) == Trace([], [], [], true)
  {
    assert ([f] + later)[0] == f;
  }

  /** A frame with a missing field ends the session without a reply and
      without touching the ledgers or the collector. */
  lemma FaultEndsSession(id: string, f: Frame, later: seq<Frame>)
    requires Handle(id, f.text) == Fault
    ensures Run(id, [f] + later) == Trace([], [], [], true)
  {
    assert ([f] + later)[0] == f;
  }

  /** Before any `HELLO` the device ID is empty: a first `DATA` frame is
      written and forwarded under the empty ID. */
  lemma DataBeforeHello(sensor: string, value: string, f: Frame, later: seq<Frame>)
    requires Sep !in sensor && Sep !in value
    requires f.text == "DATA;" + sensor + ";" + value
    ensures var t := Run("", [f] + later);
            |t.replies| >= 1 && t.replies[0] == Collector.Received &&
            |t.writes| >= 1 && t.writes[0] == Write(sensor, "", value, f.now) &&
            |t.relays| >= 1 && t.relays[0].message == "AGG_DATA;;" + sensor + ";" + value
  {
    DataYieldsReading("", sensor, value, "");
    assert f.text + "" == f.text;
    assert ([f] + later)[0] == f;
  }

  /** Along any session: one reply per frame while it stays open and at
      most one per frame overall; each ledger write is matched, in order,
      by one forwarded message built from it, which the collector accepts;
      every reply is one of the five fixed replies. */
  lemma {:induction false} SessionShape(id: string, frames: seq<Frame>)
    ensures var t := Run(id, frames);
            |t.replies| <= |frames| && (!t.ended ==> |t.replies| == |frames|) &&
            |t.relays| == |t.writes| &&
            (forall k :: 0 <= k < |t.writes| ==>
               t.relays[k].message ==
                 ForwardMessage(Reading(t.writes[k].device, t.writes[k].sensor, t.writes[k].value)) &&
               Collector.Accepts(t.relays[k].message)) &&
            (forall k :: 0 <= k < |t.replies| ==> t.replies[k] in {HelloAck, RegisterAck, Collector.Received, ByeAck, Ack})
    decreases |frames|
  {
    if frames != [] && frames[0].text != "" {
      match Handle(id, frames[0].text)
      case Fault =>
      case Close(_) =>
      case Continue(next, reply, reading) =>
        SessionShape(next, frames[1..]);
        if reading.Some? {
          ForwardAccepted(reading.value);
        }
    }
  }

  /** Along a session that starts with a `;`-free device ID, every ledger
      write holds `;`-free fields, so the collector can split each
      forwarded message back into the reading. */
  lemma {:induction false} WritesSepFree(id: string, frames: seq<Frame>)
    requires Sep !in id
    ensures var t := Run(id, frames);
            forall k :: 0 <= k < |t.writes| ==>
              Sep !in t.writes[k].device && Sep !in t.writes[k].sensor && Sep !in t.writes[k].value
    decreases |frames|
  {
    if frames != [] && frames[0].text != "" {
      match Handle(id, frames[0].text)
      case Fault =>
      case Close(_) =>
      case Continue(next, reply, reading) =>
        var fields := Split(frames[0].text, Sep);
        assert Sep !in next;
        WritesSepFree(next, frames[1..]);
        assert var rest := Run(next, frames[1..]);
               forall k :: 0 <= k < |rest.writes| ==>
                 Sep !in rest.writes[k].device && Sep !in rest.writes[k].sensor && Sep !in rest.writes[k].value;
        var t, rest := Run(id, frames), Run(next, frames[1..]);
        if reading.Some? {
          var w := Write(reading.value.sensor, id, reading.value.value, frames[0].now);
          assert t.writes == [w] + rest.writes;
          assert Sep !in w.sensor && Sep !in w.value;
          forall k | 0 <= k < |t.writes|
            ensures Sep !in t.writes[k].device && Sep !in t.writes[k].sensor && Sep !in t.writes[k].value
          {
            if k > 0 { assert t.writes[k] == rest.writes[k - 1]; }
          }
        } else {
          assert t.writes == rest.writes;
        }
    }
  }

  /** A forwarded message of a session that starts with the empty device
      ID splits back into the tag and the fields of the ledger write it was
      built from. */
  lemma RelayCarriesWrite(frames: seq<Frame>, k: nat)
    requires k < |Run("", frames).writes|
    ensures var t := Run("", frames);
            k < |t.relays| &&
            Split(t.relays[k].message, Sep) ==
              ["AGG_DATA", t.writes[k].device, t.writes[k].sensor, t.writes[k].value]
  {
    var t := Run("", frames);
    SessionShape("", frames);
    WritesSepFree("", frames);
    var w := t.writes[k];
    ForwardMessageFields(Reading(w.device, w.sensor, w.value));
  }

  /** Everything a session forwards ends up in the collector's log, one
      line per message that reached it and was saved, in order. */
  lemma SessionReachesCollector(frames: seq<Frame>, log: seq<string>)
    ensures Deliver(log, Run("", frames).relays) == log + LinesOf(Run("", frames).relays)
  {
    SessionShape("", frames);
    DeliverAppends(log, Run("", frames).relays);
  }

  /** The aggregator's session loop over the frames it reads, starting with
      the empty device ID: writes each reading to the ledger, then forwards
      it, then replies. `open` tells whether the session is still waiting
      for a frame. */
  method Serve(store: LedgerStore, central: Collector.CentralLog, frames: seq<Frame>)
    returns (replies: seq<string>, open: bool)
    modifies store, central
    ensures old(store.Valid()) ==> store.Valid()
    ensures replies == Run("", frames).replies && open == !Run("", frames).ended
    ensures store.Model() == Replay(old(store.Model()), Run("", frames).writes)
    ensures central.lines == Deliver(old(central.lines), Run("", frames).relays)
  {
    var id := "";
    var i := 0;
    replies, open := [], true;
    ghost var done := Trace([], [], [], false);
    while open && i < |frames|
      invariant 0 <= i <= |frames|
      invariant replies == done.replies
      invariant open ==> Run("", frames) == Then(done, Run(id, frames[i..]))
      invariant !open ==> Run("", frames) == done && done.ended
      invariant store.Model() == Replay(old(store.Model()), done.writes)
      invariant central.lines == Deliver(old(central.lines), done.relays)
      decreases |frames| - i, open
    {
      var f := frames[i];
      assert frames[i..] == [f] + frames[i + 1..];
      if f.text == "" {
        // zero-byte read: the connection was closed
        EmptyReadEndsSession(id, f, frames[i + 1..]);
        ThenStop(done, []);
        done := Then(done, Trace([], [], [], true));
        open := false;
      } else {
        var o := Receive(store, central, id, f);
        match o
        case Fault =>
          // the missing field throws; the exception ends the session
          FaultEndsSession(id, f, frames[i + 1..]);
          ThenStop(done, []);
          done := Then(done, Trace([], [], [], true));
          open := false;
        case Close(reply) =>
          ByeEndsSession(id, f, frames[i + 1..]);
          ThenStop(done, [reply]);
          done := Then(done, Trace([reply], [], [], true));
          replies := replies + [reply];
          open := false;
        case Continue(next, reply, _) =>
          var step := StepTrace(o, f);
          RunContinues(id, f, frames[i + 1..]);
          ThenAssoc(done, step, Run(next, frames[i + 1..]));
          ReplayConcat(old(store.Model()), done.writes, step.writes);
          DeliverConcat(old(central.lines), done.relays, step.relays);
          assert step.replies == [reply];
          done := Then(done, step);
          id := next;
          replies := replies + [reply];
          i := i + 1;
      }
    }
    if open {
      assert frames[i..] == [];
      ThenNothing(done);
    }
    if old(store.Valid()) {
      ReplayConsistent(old(store.Model()), done.writes);
    }
  }

  /** One non-empty frame of a session: its outcome, and for a reading the
      ledger write followed by the forwarded message. */
  method Receive(store: LedgerStore, central: Collector.CentralLog, id: string, f: Frame)
    returns (o: Outcome)
    modifies store, central
    ensures o == Handle(id, f.text)
    ensures old(store.Valid()) ==> store.Valid()
    ensures o.Continue? ==>
              store.Model() == Replay(old(store.Model()), StepTrace(o, f).writes) &&
              central.lines == Deliver(old(central.lines), StepTrace(o, f).relays)
    ensures !o.Continue? ==> store.Model() == old(store.Model()) && central.lines == old(central.lines)
  {
    o := Handle(id, f.text);
    if o.Continue? {
      StepEffects(store.Model(), central.lines, o, f);
      if o.reading.Some? {
        Record(store, central, o.reading.value, f);
      }
    }
  }

  /** A reading is written to its sensor's ledger, then forwarded. */
  method Record(store: LedgerStore, central: Collector.CentralLog, r: Reading, f: Frame)
    modifies store, central
    ensures old(store.Valid()) ==> store.Valid()
    ensures store.Model() == Appended(old(store.Model()), Write(r.sensor, r.device, r.value, f.now))
    ensures central.lines == Collected(old(central.lines), Relay(ForwardMessage(r), f.fate))
  {
    var _ := store.Append(r.device, r.sensor, r.value, f.now);
    Forward(central, ForwardMessage(r), f.fate);
  }

  /** What one frame that keeps the session going does to the ledgers and
      to the collector's log. */
  lemma StepEffects(st: Ledgers, log: seq<string>, o: Outcome, f: Frame)
    requires o.Continue?
    ensures o.reading.None? ==>
              Replay(st, StepTrace(o, f).writes) == st && Deliver(log, StepTrace(o, f).relays) == log
    ensures o.reading.Some? ==>
              var r := o.reading.value;
              Replay(st, StepTrace(o, f).writes) == Appended(st, Write(r.sensor, r.device, r.value, f.now)) &&
              Deliver(log, StepTrace(o, f).relays) == Collected(log, Relay(ForwardMessage(r), f.fate))
  {
    if o.reading.Some? {
      var r := o.reading.value;
      var w, m := Write(r.sensor, r.device, r.value, f.now), Relay(ForwardMessage(r), f.fate);
      assert StepTrace(o, f).writes == [w] && [w][..0] == [];
      assert StepTrace(o, f).relays == [m] && [m][..0] == [];
    }
  }

  /** The end-to-end session: a device says hello, sends one reading and
      says goodbye (for instance `HELLO;WAVY_001`, `DATA;Temperatura;20.5`,
      `BYE`). It gets `HELLO_ACK`, `RECEIVED` and `BYE_ACK` in order, the
      session ends, and the sensor's ledger, empty before, holds the
      device's marker followed by one data line with the value. */
  lemma HelloDataBye(device: string, sensor: string, value: string, f0: Frame, f1: Frame, f2: Frame)
    requires Sep !in device && Sep !in sensor && Sep !in value
    requires f0.text == "HELLO;" + device
    requires f1.text == "DATA;" + sensor + ";" + value
    requires f2.text == "BYE"
    ensures var t := Run("", [f0, f1, f2]);
            t.replies == [HelloAck, Collector.Received, ByeAck] && t.ended &&
            FileOf(Replay(Empty, t.writes), sensor) == [Marker(device), Data(f1.now, device, value)]
  {
    var w := Write(sensor, device, value, f1.now);
    var rel := Relay(ForwardMessage(Reading(device, sensor, value)), f1.fate);
    // the three steps
    HelloBindsId("", device, "");
    assert f0.text + "" == f0.text;
    DataYieldsReading(device, sensor, value, "");
    assert f1.text + "" == f1.text;
    SplitSingle("BYE", Sep);
    // the session, from its last frame back to its first
    ByeEndsSession(device, f2, []);
    assert [f2] == [f2] + [];
    var t2 := Trace([ByeAck], [], [], true);
    assert Run(device, [f2]) == t2;
    assert [f1, f2] == [f1] + [f2];
    RunContinues(device, f1, [f2]);
    var t1 := Trace([Collector.Received, ByeAck], [w], [rel], true);
    assert Run(device, [f1, f2]) == t1;
    assert [f0, f1, f2] == [f0] + [f1, f2];
    RunContinues("", f0, [f1, f2]);
    assert Run("", [f0, f1, f2]) == Trace([HelloAck, Collector.Received, ByeAck], [w], [rel], true);
    // the ledger
    assert [w] == [] + [w];
    ReplaySnoc(Empty, [], w);
    AppendedFile(Empty, w);
  }
}
