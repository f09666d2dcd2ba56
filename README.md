# StreamForge sidecar supervisor, modelled in Dafny

StreamForge is a Tauri desktop shell around a helper server process (the
"sidecar"). The shell spawns the sidecar and stores its process handle. A
background thread reads the sidecar's output. The sidecar announces the TCP
port it listens on with one stdout line, `SERVER_PORT=<port>`. The reader
records that port in a shared slot. The frontend fetches the port with the
`get_server_port` command. When the application exits, the exit handler
takes the handle out of its slot and kills the sidecar.

This project models that supervisor (`src-tauri/src/lib.rs`) and proves what
it promises:

- `outcomes.dfy` (module `Outcomes`): `Option` and `Result`.
- `text.dfy` (module `Text`): Rust's `char::is_whitespace`, `str::trim` and
  `str::strip_prefix`, as the reader applies them to a stdout line.
- `decimal.dfy` (module `Decimal`): Rust's `u16::from_str`. It takes one
  optional `+`, then ASCII digits (leading zeros allowed), at most 65535.
  It rejects an empty text, a lone `+` and any `-`. `Accumulate` is its
  checked digit loop; `IsU16Text` and `Value` describe what it accepts.
- `handshake.dfy` (module `Handshake`): the helper's events, the reading of
  one stdout line (`ClassifyStdout`), one event's effect on the port slot
  (`Step`), and the whole reader run (`Final`). `Final` stops at the first
  `Terminated` or `Error` event. `Announcements` is an independent account of
  the reader's writes, and `PortAfter` is the reader loop's running state.
- `supervisor.dfy` (module `Supervisor`): class `Sidecar` holds the port slot
  (`ServerPort`) and the handle slot (`SidecarProcess`). Its methods are the
  query, start-up, the reader loop and the exit handler. Ghost fields record
  the lines printed, the spawns and the kills. `Run` plays one whole
  application run.

Spawning and killing the process are opaque actions. Spawning is a `Spawn`
outcome. A kill is counted in the ghost field `kills`; whether it succeeded
only changes what is printed. Whether a lock can be taken is a boolean
parameter, one flag per lock for the whole run. For the port lock this is
exact: it is held only for the assignment at `src-tauri/src/lib.rs:85` and the
copy at line 33, neither of which can panic, so it is never poisoned halfway
through a run. The handle lock is held across the exit handler's printing; see
"## Left out".

Three behaviours of the code are worth stating:
- An ordinary stdout line is logged trimmed, not verbatim.
- A second valid `SERVER_PORT=` line overwrites the first: last write wins.
  The port slot never goes back to empty.
- The reader prints the received port even when the port lock is poisoned.
  The write itself is then skipped.

## Model

| member | source | states |
|---|---|---|
| `Text.TrimStartSpec` | src-tauri/src/lib.rs:79 | trimming the start leaves a suffix of the line that does not start with whitespace; everything dropped is whitespace |
| `Text.TrimEndSpec` | src-tauri/src/lib.rs:79 | trimming the end leaves a prefix of the line that does not end with whitespace; everything dropped is whitespace |
| `Text.TrimSpec` | src-tauri/src/lib.rs:79 | `trim` leaves an infix of the line with no whitespace at either end, and drops only whitespace |
| `Text.TrimPadded` | src-tauri/src/lib.rs:77-79 | surrounding whitespace, a trailing newline say, never changes what `trim` leaves |
| `Text.StripPrefix` | src-tauri/src/lib.rs:82 | `strip_prefix` succeeds exactly when the text starts with the prefix, and then prefix + rest is the text |
| `Decimal.AccumulateCorrect` | src-tauri/src/lib.rs:83 | the checked digit loop of `u16::from_str` yields the declarative value, and fails exactly on a non-digit or a value above 65535 |
| `Decimal.ParseU16Spec` | src-tauri/src/lib.rs:83 | `parse::<u16>` succeeds exactly on an optional `+` then at least one digit denoting at most 65535, and returns that number |
| `Decimal.ToDecimal` | src-tauri/src/lib.rs:82-83 | the decimal text the helper prints for its port in the handshake line (the text this parse reads back): non-empty, all digits, no leading zero unless it is `0`, and denotes that number |
| `Decimal.ValueLeadingZeros` | src-tauri/src/lib.rs:83 | leading zeros do not change the value of a digit string |
| `Decimal.ParseToDecimal` | src-tauri/src/lib.rs:83 | every port round-trips through its decimal text, also with a leading `+` and leading zeros |
| `Decimal.ParseRejects` | src-tauri/src/lib.rs:83-90 | an empty suffix, a lone `+` or any `-` is rejected |
| `Handshake.ClassifyStdoutSpec` | src-tauri/src/lib.rs:77-94 | a trimmed line without `SERVER_PORT=` is ordinary output; with it, the line announces a port exactly when the rest is `u16` text, and the port is its value; otherwise the line keeps the bad suffix |
| `Handshake.Step` | src-tauri/src/lib.rs:84-86 | one event never empties a known port slot |
| `Handshake.StepWritesOnlyAnnouncements` | src-tauri/src/lib.rs:76-99 | only a valid announcement on stdout, with the lock taken, changes the slot, and it writes the announced port; stderr lines, even ones starting with `SERVER_PORT=`, ordinary lines and bad suffixes leave it alone |
| `Handshake.AnnounceLine` | src-tauri/src/lib.rs:77-86 | `SERVER_PORT=<p>` padded with any whitespace announces `p` |
| `Handshake.StopIndex` | src-tauri/src/lib.rs:100-110 | the position found is the first `Terminated` or `Error` event, or the end when there is none |
| `Handshake.FinalIsLastAnnouncement` | src-tauri/src/lib.rs:75-113 | after the reader run, the slot holds the last port announced before the first terminating event (last write wins); with no announcement or a poisoned lock it keeps its old value |
| `Handshake.FinalKeepsKnownPort` | src-tauri/src/lib.rs:84-86 | once a port is known, the reader never empties the slot |
| `Handshake.StopIgnoresRest` | src-tauri/src/lib.rs:100-110 | events after the first `Terminated` or `Error` have no effect on the port slot |
| `Handshake.FinalIsPortAfterStop` | src-tauri/src/lib.rs:75-113 | stopping at the first terminating event equals stepping through every event before it; the terminating event writes nothing |
| `Handshake.ScenarioAnnounceThenTerminate` | src-tauri/src/lib.rs:75-110 | an announcement with a trailing newline, then `Terminated`, leaves the announced port; later lines are not read |
| `Supervisor.Sidecar.constructor` | src-tauri/src/lib.rs:128-129 | both slots start empty |
| `Supervisor.Sidecar.GetServerPort` | src-tauri/src/lib.rs:27-34 | returns `Ok(p)` exactly when the lock is taken and the slot holds `p`; otherwise the lock-failure or not-available error; changes nothing |
| `Supervisor.Sidecar.StartSidecar` | src-tauri/src/lib.rs:41-65 | a failed command creation or spawn returns its error and changes nothing; a successful spawn stores the handle and counts the spawn |
| `Supervisor.Sidecar.HandleEvent` | src-tauri/src/lib.rs:76-112 | one reader iteration updates the port slot as `Step` says, prints what `Report` says, and stops exactly on `Terminated` or `Error` |
| `Supervisor.Sidecar.ReadEvents` | src-tauri/src/lib.rs:75-113 | the reader loop handles events up to and including the first terminating event, and leaves the port slot at `Final` of the events |
| `Supervisor.Sidecar.OnExit` | src-tauri/src/lib.rs:143-158 | with the lock taken, the handle slot ends empty and one kill is issued exactly when it held a handle; with the lock poisoned nothing changes; the kill count never exceeds the spawns |
| `Supervisor.Sidecar.DeliverAppEvents` | src-tauri/src/lib.rs:142-159 | with the handle lock usable: the handle slot ends empty when an `Exit` arrives and otherwise keeps its old value; however many `Exit` events arrive, at most one kill is added, and only if the slot held a handle; the log grows by the exit handler's lines exactly then; with the lock poisoned the slot, the kill count and the log do not change |
| `Supervisor.Run` | src-tauri/src/lib.rs:124-159 | over a whole run: the query answers the reader's final port, or an error when the spawn failed, no port was announced or the lock is poisoned; exactly one kill when the spawn succeeded, the handle lock is usable and an `Exit` arrived; none otherwise |

## Left out

- Concurrency: the reader thread, `Arc<Mutex<…>>` and `blocking_recv` are not modelled. `Run` plays one interleaving: start-up, the whole reader run, one query, then the application events. Queries between reader steps are covered by calling `HandleEvent` and `GetServerPort` in any order.
- Printing never fails in the model. A failed `println!`/`eprintln!` write (a closed pipe, say) panics; at `src-tauri/src/lib.rs:151` that happens with the handle lock held, after `take()` and before `kill()`, leaving the slot empty, no kill issued and the lock poisoned. `Supervisor.Sidecar.OnExit`, `Supervisor.Sidecar.DeliverAppEvents` and `Supervisor.Run` promise their kill counts only under this assumption.
- Lock poisoning: modelled only as a per-run flag that makes the lock unavailable. Nothing in the model poisons a lock.
- `Supervisor.Sidecar.StartSidecar`: does not model the panic of `.lock().unwrap()` on the handle lock. That lock is fresh during set-up and cannot be poisoned there.
- `String::from_utf8_lossy`: lines are taken as already decoded strings.
- Logging: `println!` and `eprintln!` are recorded as tagged ghost lines (a channel and a note), not as formatted text. The `{:?}` quoting of a bad suffix is not modelled.
- The 500 ms sleep after the kill is not modelled. Nor is whether the sidecar actually exits.
- Resolving and spawning the sidecar binary, and the real `kill()`: these are foreign calls. They appear as the `Spawn` outcome and the `killOk` flag.
- `Decimal.ParseU16Spec`: does not distinguish the error kinds of `ParseIntError` (empty, invalid digit, overflow). The reader only tests for success.
- The Tauri builder, plugin registration, `invoke_handler` and the `app.state` lookups (`lib.rs:124-141`): framework wiring with no behaviour of their own.
- `src-tauri/build.rs`: build-time file copying and environment checks.
- `src-tauri/src/main.rs`: it only calls `run()`.
