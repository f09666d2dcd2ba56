/** The handshake reader in `start_sidecar`: the helper process's output
    arrives as a sequence of events, and every stdout line of the form
    `SERVER_PORT=<u16>` (after trimming) writes that port into the port slot.
    This module gives the meaning of the reader: one event's effect (`Step`),
    the whole run up to the first terminating event (`Final`), and the
    lemmas about it. The class in module Supervisor runs it as a loop. */
module Handshake {
  import opened Outcomes
  import opened Text
  import opened Decimal

  /** The announcement every handshake line starts with. */
  const PortPrefix: string := "SERVER_PORT="

  /** What the helper process's event stream delivers. `Other` stands for the
      event kinds the reader ignores. */
  datatype Event =
    | Stdout(line: string)
    | Stderr(line: string)
    | Terminated(code: Option<int>, signal: Option<int>)
    | Error(message: string)
    | Other

  /** How a stdout line is read: a valid port announcement, an announcement
      whose number does not parse, or ordinary output (carried trimmed). */
  datatype StdoutLine = Announce(port: u16) | BadPort(suffix: string) | Plain(text: string)

  /** Where a diagnostic line goes: `println!` or `eprintln!`. */
  datatype Channel = Println | Eprintln

  datatype Note =
    | PortReceived(port: u16)
    | PortParseFailed(suffix: string)
    | SidecarOutput(text: string)
    | SidecarErrorOutput(text: string)
    | SidecarTerminated(code: Option<int>, signal: Option<int>)
    | SidecarCommandError(message: string)
    | StartupFailed(reason: string)
    | ShuttingDown
    | KillFailed

  datatype LogLine = LogLine(channel: Channel, note: Note)

  /** Trim the line, strip `SERVER_PORT=`, parse the rest as a `u16`. */
  function ClassifyStdout(line: string): StdoutLine {
    var trimmed := Trim(line);
    match StripPrefix(trimmed, PortPrefix)
    case None => Plain(trimmed)
    case Some(suffix) =>
      match ParseU16(suffix)
      case Some(port) => Announce(port)
      case None => BadPort(suffix)
  }

  /** A trimmed line without the prefix is ordinary output; with the prefix,
      it announces a port exactly when the rest is `u16` text, and that port
      is the number the text denotes. */
  lemma ClassifyStdoutSpec(line: string)
    ensures var c, t := ClassifyStdout(line), Trim(line);
      && (c.Plain? <==> !(PortPrefix <= t))
      && (c.Plain? ==> c.text == t)
      && (c.Announce? <==> PortPrefix <= t && IsU16Text(t[|PortPrefix|..]))
      && (c.Announce? ==> c.port == Value(Magnitude(t[|PortPrefix|..])))
      && (c.BadPort? ==> t == PortPrefix + c.suffix)
  {
    var t := Trim(line);
    if PortPrefix <= t {
      ParseU16Spec(t[|PortPrefix|..]);
    }
  }

  /** The events that end the reader loop. */
  predicate IsStop(e: Event) {
    e.Terminated? || e.Error?
  }

  /** The port slot after one event. The write needs the port lock; when the
      lock cannot be taken (`lockOk` false) the write is skipped. */
  function Step(port: Option<u16>, e: Event, lockOk: bool): (r: Option<u16>)
    ensures port.Some? ==> r.Some?
  {
    match e
    case Stdout(line) =>
      (match ClassifyStdout(line)
       case Announce(p) => if lockOk then Some(p) else port
       case _ => port)
    case _ => port
  }

  /** What the reader prints for one event. */
  function Report(e: Event): seq<LogLine> {
    match e
    case Stdout(line) =>
      (match ClassifyStdout(line)
       case Announce(p) => [LogLine(Println, PortReceived(p))]
       case BadPort(suffix) => [LogLine(Eprintln, PortParseFailed(suffix))]
       case Plain(text) => [LogLine(Println, SidecarOutput(text))])
    case Stderr(line) => [LogLine(Eprintln, SidecarErrorOutput(Trim(line)))]
    case Terminated(code, signal) => [LogLine(Println, SidecarTerminated(code, signal))]
    case Error(message) => [LogLine(Eprintln, SidecarCommandError(message))]
    case Other => []
  }

  /** Everything the reader prints for the first `n` events it handles. */
  function Transcript(events: seq<Event>, n: nat): seq<LogLine>
    requires n <= |events|
  {
    if n == 0 then [] else Transcript(events, n - 1) + Report(events[n - 1])
  }

  /** The port slot after the reader has run over `events`: it handles events
      in order and stops at the first `Terminated` or `Error`. */
  function Final(port: Option<u16>, events: seq<Event>, lockOk: bool): Option<u16>
    decreases |events|
  {
    if events == [] || IsStop(events[0]) then port
    else Final(Step(port, events[0], lockOk), events[1..], lockOk)
  }

  /** The position of the first terminating event, or `|events|` if none. */
  function StopIndex(events: seq<Event>): (k: nat)
    ensures k <= |events|
    ensures forall i :: 0 <= i < k ==> !IsStop(events[i])
    ensures k < |events| ==> IsStop(events[k])
  {
    if events == [] then 0
    else if IsStop(events[0]) then 0
    else 1 + StopIndex(events[1..])
  }

  /** The port slot after the reader has handled the first `n` events, one
      `Step` at a time; the loop in `Sidecar.ReadEvents` keeps its slot equal
      to this. */
  function PortAfter(port: Option<u16>, events: seq<Event>, n: nat, lockOk: bool): Option<u16>
    requires n <= |events|
  {
    if n == 0 then port else Step(PortAfter(port, events, n - 1, lockOk), events[n - 1], lockOk)
  }

  /** Stopping at the first terminating event is the same as stepping through
      every event before it; the terminating event itself writes nothing. */
  lemma {:induction false} FinalIsPortAfterStop(port: Option<u16>, events: seq<Event>, lockOk: bool)
    ensures Final(port, events, lockOk) == PortAfter(port, events, StopIndex(events), lockOk)
    ensures StopIndex(events) < |events| ==>
      Final(port, events, lockOk) == PortAfter(port, events, StopIndex(events) + 1, lockOk)
    decreases |events|
  {
    if events != [] && !IsStop(events[0]) {
      var rest := events[1..];
      FinalIsPortAfterStop(Step(port, events[0], lockOk), rest, lockOk);
      PortAfterShift(port, events, StopIndex(rest), lockOk);
      if StopIndex(rest) < |rest| {
        PortAfterShift(port, events, StopIndex(rest) + 1, lockOk);
      }
    }
  }

  /** Handling `events` from the second event on, starting from the slot after
      the first, is handling `events` from the start. */
  lemma {:induction false} PortAfterShift(port: Option<u16>, events: seq<Event>, n: nat, lockOk: bool)
    requires 0 < |events| && n < |events|
    ensures PortAfter(Step(port, events[0], lockOk), events[1..], n, lockOk) == PortAfter(port, events, n + 1, lockOk)
  {
    if n > 0 {
      PortAfterShift(port, events, n - 1, lockOk);
    }
  }

  /** The ports announced by valid handshake lines on stdout, in order; an
      independent account of the reader's writes. */
  function Announcements(events: seq<Event>): seq<u16> {
    if events == [] then []
    else
      (match events[0]
       case Stdout(line) =>
         (match ClassifyStdout(line)
          case Announce(p) => [p]
          case _ => [])
       case _ => []) + Announcements(events[1..])
  }

  /** The reader's final port is the last port announced before the first
      terminating event (last write wins); with no announcement, or when the
      port lock cannot be taken, the slot keeps its old value. */
  lemma {:induction false} FinalIsLastAnnouncement(port: Option<u16>, events: seq<Event>, lockOk: bool)
    ensures var a := Announcements(events[..StopIndex(events)]);
      Final(port, events, lockOk) == if !lockOk || a == [] then port else Some(a[|a| - 1])
    decreases |events|
  {
    if events == [] || IsStop(events[0]) {
      assert events[..StopIndex(events)] == [];
    } else {
      var rest := events[1..];
      var k := StopIndex(events);
      assert k == 1 + StopIndex(rest);
      var pre := events[..k];
      assert pre[0] == events[0] && pre[1..] == rest[..StopIndex(rest)];
      FinalIsLastAnnouncement(Step(port, events[0], lockOk), rest, lockOk);
    }
  }

  /** Once a port is known it is never lost. */
  lemma FinalKeepsKnownPort(port: Option<u16>, events: seq<Event>, lockOk: bool)
    requires port.Some?
    ensures Final(port, events, lockOk).Some?
  {
    FinalIsLastAnnouncement(port, events, lockOk);
  }

  /** Events after the first terminating event have no effect. */
  lemma {:induction false} StopIgnoresRest(port: Option<u16>, pre: seq<Event>, stop: Event, post: seq<Event>, lockOk: bool)
    requires forall i :: 0 <= i < |pre| ==> !IsStop(pre[i])
    requires IsStop(stop)
    ensures Final(port, pre + [stop] + post, lockOk) == Final(port, pre, lockOk)
    decreases |pre|
  {
    var all := pre + [stop] + post;
    if pre == [] {
      assert all[0] == stop;
    } else {
      assert all[0] == pre[0] && all[1..] == pre[1..] + [stop] + post;
      StopIgnoresRest(Step(port, pre[0], lockOk), pre[1..], stop, post, lockOk);
    }
  }

  /** A handshake line, padded with any whitespace (a trailing newline, say),
      announces its port. */
  lemma AnnounceLine(p: u16, lead: string, trail: string)
    requires AllWhitespace(lead) && AllWhitespace(trail)
    ensures ClassifyStdout(lead + PortPrefix + ToDecimal(p) + trail) == Announce(p)
  {
    var body := PortPrefix + ToDecimal(p);
    assert lead + PortPrefix + ToDecimal(p) + trail == lead + body + trail;
    assert body[|body| - 1] == ToDecimal(p)[|ToDecimal(p)| - 1];
    TrimPadded(lead, body, trail);
    assert body[|PortPrefix|..] == ToDecimal(p);
    ParseToDecimal(p, false, 0);
  }

  /** Only a valid announcement on stdout, written under the lock, changes the
      port slot: stderr lines (even ones starting with `SERVER_PORT=`),
      ordinary stdout lines and announcements with a bad number leave it. */
  lemma StepWritesOnlyAnnouncements(port: Option<u16>, e: Event, lockOk: bool)
    ensures Step(port, e, lockOk) != port ==>
      && lockOk && e.Stdout?
      && PortPrefix <= Trim(e.line)
      && IsU16Text(Trim(e.line)[|PortPrefix|..])
      && Step(port, e, lockOk) == Some(Value(Magnitude(Trim(e.line)[|PortPrefix|..])))
  {
    if e.Stdout? {
      ClassifyStdoutSpec(e.line);
    }
  }

  /** A typical run: the helper announces its port
      with a trailing newline and then terminates; nothing it prints later is
      read, and the port stays known. */
  lemma ScenarioAnnounceThenTerminate(p: u16, later: seq<Event>)
    ensures Final(None, [Stdout(PortPrefix + ToDecimal(p) + "\n"), Terminated(Some(0), None)] + later, true)
      == Some(p)
  {
    var line := PortPrefix + ToDecimal(p) + "\n";
    assert "" + PortPrefix + ToDecimal(p) + "\n" == line;
    AnnounceLine(p, "", "\n");
    assert [Stdout(line), Terminated(Some(0), None)] + later == [Stdout(line)] + [Terminated(Some(0), None)] + later;
    StopIgnoresRest(None, [Stdout(line)], Terminated(Some(0), None), later, true);
    assert [Stdout(line)][1..] == [];
  }
}
