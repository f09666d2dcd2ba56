/** The sidecar supervisor: the two shared slots (the port and the child
    process handle), the query the frontend calls, the start-up that spawns
    the helper and stores its handle, the reader loop over the helper's
    events, and the exit handler that kills the helper. */
module Supervisor {
  import opened Outcomes
  import opened Decimal
  import opened Handshake

  /** An opaque handle on the spawned helper process. */
  datatype Child = Child(pid: nat)

  /** What resolving and spawning the helper binary produced. */
  datatype Spawn =
    | Spawned(child: Child)
    | CommandFailed(reason: string)   // the sidecar command could not be created
    | SpawnFailed(reason: string)     // the process could not be started

  /** The application lifecycle events the exit handler sees. */
  datatype AppEvent = Exit | OtherAppEvent

  /** The errors the frontend receives from the port query: the port lock is
      poisoned (the text ends with the lock error's own description), or the
      port has not been announced yet. */
  const LockFailed: string := "Failed to read server port: poisoned lock: another task failed inside"
  const NotAvailable: string := "Server port not available yet"

  /** The errors start-up reports for a sidecar that cannot be started. */
  function CommandFailedMessage(reason: string): string {
    "Failed to create sidecar command: " + reason + ". Make sure the binary exists in src-tauri/binaries/"
  }

  function SpawnFailedMessage(reason: string): string {
    "Failed to spawn sidecar process: " + reason + ". The binary may be missing or not executable."
  }

  /** What the exit handler prints when it takes a handle and kills it. */
  function ExitLog(killOk: bool): seq<LogLine> {
    [LogLine(Println, ShuttingDown)] + if killOk then [] else [LogLine(Eprintln, KillFailed)]
  }

  class Sidecar {
    /** `ServerPort`: `None` until the helper announces its port. */
    var port: Option<u16>
    /** `SidecarProcess`: the handle of the running helper, if any. */
    var child: Option<Child>
    /** What was printed with `println!` and `eprintln!`. */
    ghost var log: seq<LogLine>
    /** How many helpers were spawned, and how many kills were issued. */
    ghost var spawns: nat
    ghost var kills: nat

    /** Every kill consumes a handle that was stored by a spawn, and a handle
        still in the slot has not been killed yet. */
    ghost predicate Valid()
      reads this
    {
      kills + (if child.Some? then 1 else 0) <= spawns
    }

    /** Both slots start empty. */
    constructor ()
      ensures Valid()
      ensures port == None && child == None
      ensures log == [] && spawns == 0 && kills == 0
    {
      port := None;
      child := None;
      log := [];
      spawns := 0;
      kills := 0;
    }

    /** `get_server_port`: the port if it is known; an error if it is not yet
        known or the port lock cannot be taken. Changes nothing. */
    method GetServerPort(lockOk: bool) returns (r: Result<u16, string>)
      ensures r.Ok? <==> lockOk && port.Some?
      ensures r.Ok? ==> port == Some(r.value)
      ensures r.Err? ==> r.error == if lockOk then NotAvailable else LockFailed
    {
      if !lockOk {
        return Err(LockFailed);
      }
      match port
      case Some(p) => r := Ok(p);
      case None => r := Err(NotAvailable);
    }

    /** The part of `start_sidecar` that runs on the caller's thread: a failed
        spawn is reported and changes nothing; a successful one stores the
        handle (replacing any earlier one). The reader it starts is `ReadEvents`. */
    method StartSidecar(spawn: Spawn) returns (r: Result<(), string>)
      requires Valid()
      modifies this
      ensures Valid()
      ensures r.Ok? <==> spawn.Spawned?
      ensures spawn.CommandFailed? ==> r == Err(CommandFailedMessage(spawn.reason))
      ensures spawn.SpawnFailed? ==> r == Err(SpawnFailedMessage(spawn.reason))
      ensures spawn.Spawned? ==> child == Some(spawn.child) && spawns == old(spawns) + 1
      ensures !spawn.Spawned? ==> child == old(child) && spawns == old(spawns)
      ensures port == old(port) && kills == old(kills) && log == old(log)
    {
      match spawn
      case CommandFailed(reason) =>
        r := Err(CommandFailedMessage(reason));
      case SpawnFailed(reason) =>
        r := Err(SpawnFailedMessage(reason));
      case Spawned(c) =>
        child := Some(c);
        spawns := spawns + 1;
        r := Ok(());
    }

    /** One iteration of the reader loop: update the port slot as `Step`
        says, print what `Report` says, and tell whether to stop. */
    method HandleEvent(e: Event, lockOk: bool) returns (stop: bool)
      modifies this
      ensures stop == IsStop(e)
      ensures port == Step(old(port), e, lockOk)
      ensures log == old(log) + Report(e)
      ensures child == old(child) && spawns == old(spawns) && kills == old(kills)
    {
      stop := false;
      match e {
        case Stdout(line) =>
          match ClassifyStdout(line) {
            case Announce(p) =>
              if lockOk {
                port := Some(p);
              }
            case _ =>
          }
        case Terminated(_, _) =>
          stop := true;
        case Error(_) =>
          stop := true;
        case _ =>
      }
      log := log + Report(e);
    }

    /** The reader thread: handle events in arrival order until the stream
        ends or a `Terminated` or `Error` event has been handled. The port lock
        is either usable for the whole run or poisoned for the whole run. */
    method ReadEvents(events: seq<Event>, lockOk: bool) returns (handled: nat)
      modifies this
      ensures handled == if StopIndex(events) < |events| then StopIndex(events) + 1 else |events|
      ensures port == Final(old(port), events, lockOk)
      ensures log == old(log) + Transcript(events, handled)
      ensures child == old(child) && spawns == old(spawns) && kills == old(kills)
    {
      handled := 0;
      var stop := false;
      while handled < |events| && !stop
        invariant handled <= |events|
        invariant if stop then handled == StopIndex(events) + 1 else handled <= StopIndex(events)
        invariant port == PortAfter(old(port), events, handled, lockOk)
        invariant log == old(log) + Transcript(events, handled)
        invariant child == old(child) && spawns == old(spawns) && kills == old(kills)
      {
        stop := HandleEvent(events[handled], lockOk);
        handled := handled + 1;
      }
      FinalIsPortAfterStop(old(port), events, lockOk);
    }

    /** The `RunEvent::Exit` handler: take the handle out of its slot and kill
        the helper once; with an empty slot, or when the lock cannot be taken,
        do nothing. A failed kill is only reported. */
    method OnExit(lockOk: bool, killOk: bool)
      requires Valid()
      modifies this
      ensures Valid()
      ensures !lockOk ==> child == old(child) && kills == old(kills) && log == old(log)
      ensures lockOk ==> child == None
      ensures lockOk ==> kills == old(kills) + if old(child).Some? then 1 else 0
      ensures lockOk && old(child).None? ==> log == old(log)
      ensures lockOk && old(child).Some? ==> log == old(log) + ExitLog(killOk)
      ensures port == old(port) && spawns == old(spawns)
    {
      if !lockOk {
        return;
      }
      var taken := child;
      child := None;
      if taken.Some? {
        log := log + [LogLine(Println, ShuttingDown)];
        kills := kills + 1;
        if !killOk {
          log := log + [LogLine(Eprintln, KillFailed)];
        }
      }
    }

    /** The application's event loop (`app.run`): every `Exit` event reaches
        the exit handler, other events are ignored. However many `Exit`
        events arrive, the helper is killed at most once. */
    method DeliverAppEvents(appEvents: seq<AppEvent>, lockOk: bool, killOk: bool)
      requires Valid()
      modifies this
      ensures Valid()
      ensures !lockOk ==> child == old(child) && kills == old(kills)
      ensures lockOk ==> child == if Exit in appEvents then None else old(child)
      ensures lockOk ==> kills == old(kills) + if Exit in appEvents && old(child).Some? then 1 else 0
      ensures log == old(log) + if lockOk && Exit in appEvents && old(child).Some? then ExitLog(killOk) else []
      ensures port == old(port) && spawns == old(spawns)
    {
      var i := 0;
      while i < |appEvents|
        invariant i <= |appEvents|
        invariant Valid()
        invariant port == old(port) && spawns == old(spawns)
        invariant !lockOk ==> child == old(child) && kills == old(kills)
        invariant lockOk ==> child == if Exit in appEvents[..i] then None else old(child)
        invariant lockOk ==> kills == old(kills) + if Exit in appEvents[..i] && old(child).Some? then 1 else 0
        invariant log == old(log) + if lockOk && Exit in appEvents[..i] && old(child).Some? then ExitLog(killOk) else []
      {
        if appEvents[i] == Exit {
          OnExit(lockOk, killOk);
        }
        assert appEvents[..i + 1] == appEvents[..i] + [appEvents[i]];
        i := i + 1;
      }
      assert appEvents[..i] == appEvents;
    }
  }

  /** One run of the application, in one interleaving: set-up spawns the
      helper, the reader handles the helper's events, the frontend queries
      the port, then the event loop delivers `appEvents` to the exit handler.
      The port lock and the handle lock are each usable or poisoned for the
      whole run. */
  method Run(spawn: Spawn, events: seq<Event>, portLockOk: bool,
             appEvents: seq<AppEvent>, handleLockOk: bool, killOk: bool)
    returns (answer: Result<u16, string>, ghost kills: nat)
    ensures answer.Ok? <==> spawn.Spawned? && portLockOk && Final(None, events, portLockOk).Some?
    ensures answer.Ok? ==> Final(None, events, portLockOk) == Some(answer.value)
    ensures answer.Err? ==> answer.error == if portLockOk then NotAvailable else LockFailed
    ensures kills == if spawn.Spawned? && handleLockOk && Exit in appEvents then 1 else 0
  {
    var s := new Sidecar();
    var started := s.StartSidecar(spawn);
    if started.Err? {
      s.log := s.log + [LogLine(Eprintln, StartupFailed(started.error))];
    } else {
      var _ := s.ReadEvents(events, portLockOk);
    }
    answer := s.GetServerPort(portLockOk);
    s.DeliverAppEvents(appEvents, handleLockOk, killOk);
    kills := s.kills;
  }
}
