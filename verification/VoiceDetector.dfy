/** The voice detector: a queue of commands, the loop that executes them, and the command lists the
    application sends for each event. What a command does to the hardware is not modelled. Opening the
    capture stream is the one command that can fail, and does so when the stream is not set up. */
module VoiceDetector {
  import opened Helpers

  const QUEUE_SIZE := 15

  const CMD_IDLE := 0
  const CMD_EXIT := 1
  const CMD_VAD_OPEN := 2
  const CMD_VAD_START := 3
  const CMD_VAD_STOP := 4
  const CMD_VAD_CLOSE := 5
  const CMD_AUD_CAP_START := 6
  const CMD_AUD_CAP_STOP := 7
  const CMD_AUD_CAP_OPEN := 8
  const CMD_AUD_CAP_CLOSE := 9
  const CMD_SYS_CLK_32K := 10
  const CMD_SYS_CLK_104M := 13

  /** A command; the status of the detector is the last command that set it. */
  type Cmd = c: nat | c <= CMD_SYS_CLK_104M

  // ---------------------------------------------------------------------------------------------
  // The queue
  // ---------------------------------------------------------------------------------------------

  /** The commands waiting, and how many places of the array are used up: places come back only when
      the queue runs empty. */
  datatype Queue = Queue(items: seq<Cmd>, used: nat) {
    predicate Valid() {
      |items| <= used <= QUEUE_SIZE && (items == [] ==> used == 0)
    }
  }

  function Push(q: Queue, c: Cmd): (r: (Queue, int))
    requires q.Valid()
    ensures r.0.Valid()
  {
    if q.used >= QUEUE_SIZE then (q, -2) else (Queue(q.items + [c], q.used + 1), 0)
  }

  function Pop(q: Queue): (r: Queue)
    requires q.Valid() && q.items != []
    ensures r.Valid()
  {
    if |q.items| == 1 then Queue([], 0) else Queue(q.items[1..], q.used)
  }

  class CommandQueue {
    var idx: int
    var out: int
    const data: array<Cmd>

    ghost predicate Valid()
      reads this
    {
      && data.Length == QUEUE_SIZE
      && ((idx == -1 && out == -1) || (0 < idx <= QUEUE_SIZE && -1 <= out < idx))
    }

    ghost function View(): (q: Queue)
      requires Valid()
      reads this, data
      ensures q.Valid()
    {
      if idx < 0 then Queue([], 0) else Queue(data[if out < 0 then 0 else out..idx], idx)
    }

    /** `voice_detector_init_cmd_queue`. */
    constructor ()
      ensures Valid() && fresh(data) && View() == Queue([], 0)
    {
      idx, out := -1, -1;
      data := new Cmd[QUEUE_SIZE](_ => 0);
    }

    /** `cmd_queue_enqueue`. */
    method Enqueue(c: Cmd) returns (ret: int)
      requires Valid()
      modifies this, data
      ensures Valid() && (View(), ret) == Push(old(View()), c)
    {
      if idx >= QUEUE_SIZE {
        return -2;
      }
      if idx < 0 {
        idx := 0;
      }
      data[idx] := c;
      idx := idx + 1;
      ret := 0;
      assert View().items == old(View()).items + [c];
    }

    /** `cmd_queue_dequeue`. */
    method Dequeue() returns (cmd: int)
      requires Valid()
      modifies this
      ensures Valid()
      ensures if old(View()).items == [] then cmd == -2 && View() == old(View())
              else cmd == old(View()).items[0] && View() == Pop(old(View()))
    {
      if idx < 0 {
        return -2;
      }
      if out < 0 {
        out := 0;
      }
      cmd := data[out];
      out := out + 1;
      if out >= idx {
        out, idx := -1, -1;
      }
    }

    /** `cmd_queue_is_empty`. */
    method IsEmpty() returns (empty: bool)
      requires Valid()
      ensures empty <==> View().items == []
    {
      empty := idx < 0;
    }

    /** `voice_detector_send_cmd_array`: stops at the first command that does not fit. */
    method SendCmdArray(cmds: seq<Cmd>) returns (ret: int)
      requires Valid()
      modifies this, data
      ensures Valid() && (View(), ret) == PushAll(old(View()), cmds)
    {
      var i := 0;
      while i < |cmds|
        invariant 0 <= i <= |cmds| && Valid()
        invariant PushAll(old(View()), cmds) == PushAll(View(), cmds[i..])
      {
        ret := Enqueue(cmds[i]);
        if ret != 0 {
          return;
        }
        i := i + 1;
      }
      return 0;
    }
  }

  function PushAll(q: Queue, cmds: seq<Cmd>): (r: (Queue, int))
    requires q.Valid()
    ensures r.0.Valid()
    decreases |cmds|
  {
    if cmds == [] then (q, 0)
    else
      var (t, ret) := Push(q, cmds[0]);
      if ret != 0 then (t, ret) else PushAll(t, cmds[1..])
  }

  /** An array goes in as far as there are places left, and the result tells whether all of it did. */
  lemma {:induction false} PushAllFits(q: Queue, cmds: seq<Cmd>)
    requires q.Valid()
    ensures var (t, ret) := PushAll(q, cmds);
            var k := if |cmds| <= 15 - q.used then |cmds| else 15 - q.used;
            && t.items == q.items + cmds[..k] && t.used == q.used + k
            && ret == if |cmds| <= 15 - q.used then 0 else -2
    decreases |cmds|
  {
    if cmds != [] && q.used < QUEUE_SIZE {
      PushAllFits(Push(q, cmds[0]).0, cmds[1..]);
    }
  }

  // ---------------------------------------------------------------------------------------------
  // Execution
  // ---------------------------------------------------------------------------------------------

  datatype Mode = ONESHOT | EXEC_CMD | LOOP

  predicate IsClock(c: Cmd) {
    c >= CMD_SYS_CLK_32K
  }

  /** `voice_detector_process_cmd`, by whether a capture stream is set up. */
  function Err(configured: bool, c: Cmd): int {
    if c == CMD_AUD_CAP_OPEN && !configured then -1 else 0
  }

  /** The status after some commands: the last one that succeeded and is not a clock command. */
  function StatusAfter(configured: bool, status: Cmd, cmds: seq<Cmd>): Cmd {
    if cmds == [] then status
    else
      var n := |cmds| - 1;
      if Err(configured, cmds[n]) == 0 && !IsClock(cmds[n]) then cmds[n]
      else StatusAfter(configured, status, cmds[..n])
  }

  function ExitCode(configured: bool, cmds: seq<Cmd>): int {
    if cmds == [] then 0 else Err(configured, cmds[|cmds| - 1])
  }

  function FirstExit(items: seq<Cmd>): (i: nat)
    ensures i <= |items| && (i < |items| ==> items[i] == CMD_EXIT) && forall k | 0 <= k < i :: items[k] != CMD_EXIT
  {
    if items == [] then 0 else if items[0] == CMD_EXIT then 0 else 1 + FirstExit(items[1..])
  }

  /** How many of the waiting commands a run takes. */
  function Taken(mode: Mode, items: seq<Cmd>): (k: nat)
    ensures k <= |items|
  {
    match mode
    case ONESHOT => Min(1, |items|)
    case EXEC_CMD => |items|
    case LOOP => Min(FirstExit(items) + 1, |items|)
  }

  function Dropped(q: Queue, k: nat): (r: Queue)
    requires q.Valid() && k <= |q.items|
    ensures r.Valid()
  {
    if k == |q.items| then Queue([], 0) else Queue(q.items[k..], q.used)
  }

  /** The detector between calls: whether it is open, its status, what its queue holds and whether a
      capture stream is set up. */
  datatype Det = Det(init: bool, status: Cmd, queue: Queue, configured: bool)

  function Executes(d: Det, mode: Mode): seq<Cmd> {
    if d.init then d.queue.items[..Taken(mode, d.queue.items)] else []
  }

  /** `voice_detector_run`: the detector afterwards, and the exit code. */
  function Ran(d: Det, mode: Mode): (r: (Det, int))
    requires d.queue.Valid()
    ensures r.0.queue.Valid()
  {
    if d.init then
      var cmds := Executes(d, mode);
      (d.(status := StatusAfter(d.configured, d.status, cmds), queue := Dropped(d.queue, |cmds|)),
       ExitCode(d.configured, cmds))
    else (d, -2)
  }

  /** `voice_detector_open`: everything is forgotten, the capture stream included. */
  function Reopened(d: Det): (Det, int) {
    if d.init then (d, -2) else (Det(true, CMD_IDLE, Queue([], 0), false), 0)
  }

  /** `voice_detector_setup_stream` for the capture stream; `usable` is whether it has a handler and a
      buffer. */
  function SetUpWith(d: Det, usable: bool): (Det, int) {
    if d.init then (d.(configured := usable), 0) else (d, -2)
  }

  // ---------------------------------------------------------------------------------------------
  // The command lists of the application
  // ---------------------------------------------------------------------------------------------

  datatype Event = VadStart | AudCapStart | CloseAll | OtherEvent

  const ARR_VAD_START: seq<Cmd> :=
    [CMD_AUD_CAP_STOP, CMD_AUD_CAP_CLOSE, CMD_VAD_OPEN, CMD_VAD_START, CMD_SYS_CLK_32K]
  const ARR_CAP_START: seq<Cmd> := [CMD_AUD_CAP_OPEN, CMD_AUD_CAP_START, CMD_VAD_STOP, CMD_VAD_CLOSE]
  const ARR_CLOSE: seq<Cmd> := [CMD_AUD_CAP_STOP, CMD_AUD_CAP_CLOSE, CMD_VAD_STOP, CMD_VAD_CLOSE, CMD_EXIT]
  const ARR_CAP_CLOSE: seq<Cmd> := [CMD_AUD_CAP_STOP, CMD_AUD_CAP_CLOSE, CMD_EXIT]
  const ARR_VAD_CLOSE: seq<Cmd> := [CMD_VAD_STOP, CMD_VAD_CLOSE, CMD_EXIT]

  /** What the application sends for an event, by the status it finds. */
  function CommandsFor(evt: Event, status: Cmd): (cmds: seq<Cmd>)
    ensures 0 < |cmds| <= QUEUE_SIZE
  {
    match evt
    case VadStart => if status == CMD_VAD_CLOSE then ARR_VAD_START else ARR_VAD_START[2..]
    case AudCapStart => ARR_CAP_START
    case CloseAll => if status == CMD_VAD_CLOSE then ARR_CAP_CLOSE else ARR_VAD_CLOSE
    case OtherEvent => ARR_CLOSE
  }

  /** The commands that wait once an event has sent its own. */
  function Waiting(d: Det, evt: Event): (q: Queue)
    requires d.queue.Valid()
    ensures q.Valid()
  {
    PushAll(d.queue, CommandsFor(evt, d.status)).0
  }

  /** An event: an open detector executes what waits, CLOSE closes it, a closed one executes nothing and
      keeps the commands. */
  function Handled(d: Det, evt: Event): (r: (Det, int))
    requires d.queue.Valid()
    ensures r.0.queue.Valid()
  {
    var (e, code) := Ran(d.(queue := Waiting(d, evt)), EXEC_CMD);
    (e.(init := e.init && evt != CloseAll), code)
  }

  class Detector {
    const queue: CommandQueue
    var init: bool
    var running: bool
    var status: Cmd
    var configured: bool

    ghost predicate Valid()
      reads this, queue
    {
      queue.Valid()
    }

    ghost function View(): (d: Det)
      requires Valid()
      reads this, queue, queue.data
      ensures d.queue.Valid()
    {
      Det(init, status, queue.View(), configured)
    }

    /** `voice_detector_open` of a device at rest. */
    constructor ()
      ensures Valid() && fresh(queue) && fresh(queue.data)
      ensures View() == Det(true, CMD_IDLE, Queue([], 0), false) && !running
    {
      queue := new CommandQueue();
      init, running, status, configured := true, false, CMD_IDLE, false;
    }

    /** `voice_detector_open` again. */
    method Open() returns (ret: int)
      requires Valid() && !running
      modifies this, queue
      ensures Valid() && !running && (View(), ret) == Reopened(old(View()))
    {
      if init {
        return -2;
      }
      queue.idx, queue.out := -1, -1;
      status, init, configured := CMD_IDLE, true, false;
      return 0;
    }

    /** `voice_detector_setup_stream`. Nothing reads the configuration of the playback stream. */
    method SetupStream(capture: bool, handler: bool, dataPtr: bool) returns (ret: int)
      requires Valid()
      modifies `configured
      ensures Valid()
      ensures capture ==> (View(), ret) == SetUpWith(old(View()), handler && dataPtr)
      ensures !capture ==> View() == old(View()) && ret == if init then 0 else -2
    {
      if !init {
        return -2;
      }
      if capture {
        configured := handler && dataPtr;
      }
      return 0;
    }

    /** `voice_detector_process_cmd`: of the functions it calls only the one that opens the capture
        stream returns anything but 0. */
    method ProcessCmd(cmd: Cmd) returns (err: int)
      ensures err == Err(configured, cmd)
    {
      if cmd == CMD_AUD_CAP_OPEN {
        if !configured {
          return -1;
        }
      }
      return 0;
    }

    /** `voice_detector_set_status`. */
    method SetStatus(c: Cmd)
      modifies `status
      ensures status == if IsClock(c) then old(status) else c
    {
      if !IsClock(c) {
        status := c;
      }
    }

    /** The start of a round of the loop: the next command, if there is one, is processed. */
    method Round() returns (cmd: int, err: int)
      requires Valid()
      modifies `status, queue
      ensures Valid()
      ensures var items := old(queue.View()).items;
              if items == [] then cmd == -2 && err == 0 && View() == old(View())
              else
                && cmd == items[0] && err == Err(configured, items[0]) && queue.View() == Pop(old(queue.View()))
                && status == if err == 0 && !IsClock(items[0]) then items[0] else old(status)
    {
      err := 0;
      cmd := queue.Dequeue();
      if cmd >= 0 {
        err := ProcessCmd(cmd);
        if err == 0 {
          SetStatus(cmd);
        }
      }
    }

    /** `voice_detector_run`, its callbacks sending no command. In LOOP mode it returns only upon an EXIT
        command. */
    method Run(mode: Mode) returns (exitCode: int, executed: seq<Cmd>)
      requires Valid() && (init && mode == LOOP ==> CMD_EXIT in queue.View().items)
      modifies this, queue
      ensures Valid() && (View(), exitCode) == Ran(old(View()), mode) && executed == Executes(old(View()), mode)
      ensures init ==> !running
    {
      if !init {
        return -2, [];
      }
      running := true;
      exitCode, executed := Rounds(mode);
      running := false;
    }

    /** The `switch` over the mode at the end of a round. */
    method Content(mode: Mode, cmd: int) returns (exit: bool)
      requires Valid()
      ensures exit == Ends(mode, cmd, queue.View().items == [])
    {
      match mode {
        case ONESHOT => exit := true;
        case EXEC_CMD => exit := queue.IsEmpty();
        case LOOP => exit := cmd == CMD_EXIT;
      }
    }

    /** The loop of `voice_detector_run`. */
    method Rounds(mode: Mode) returns (exitCode: int, executed: seq<Cmd>)
      requires Valid() && init && (mode == LOOP ==> CMD_EXIT in queue.View().items)
      modifies `status, queue
      ensures Valid() && (View(), exitCode) == Ran(old(View()), mode) && executed == Executes(old(View()), mode)
    {
      hide IsClock, Pop, StatusAfter, Dropped, ExitCode, Err, InRounds, Executes, Taken, Ends, Ran, CommandQueue.Valid,
        CommandQueue.View;
      exitCode, executed := 0, [];
      var exit := false;
      ghost var d := View();
      ghost var q := queue.View();
      RoundsStart(d, mode);
      while !exit
        invariant Valid() && init == d.init && configured == d.configured && (!exit ==> exitCode == 0)
        invariant queue.View() == q && InRounds(d, mode, executed, status, q, exit, exitCode)
        decreases |d.queue.items| - |executed|, !exit
      {
        RoundMade(d, mode, executed, status, q);
        var cmd, err := Round();
        if cmd >= 0 {
          executed, q := executed + [cmd], Pop(q);
        }
        exit := Content(mode, cmd);
        if exit {
          exitCode := err;
        }
      }
      RoundsEnd(d, mode, executed, status, q, exitCode);
    }

    /** The choice of the command list. */
    method Select(evt: Event) returns (cmds: seq<Cmd>)
      ensures cmds == CommandsFor(evt, status)
    {
      match evt {
        case VadStart =>
          if status == CMD_VAD_CLOSE {
            cmds := ARR_VAD_START;
          } else {
            cmds := ARR_VAD_START[2..];
          }
        case AudCapStart => cmds := ARR_CAP_START;
        case CloseAll =>
          if status == CMD_VAD_CLOSE {
            cmds := ARR_CAP_CLOSE;
          } else {
            cmds := ARR_VAD_CLOSE;
          }
        case OtherEvent => cmds := ARR_CLOSE;
      }
    }

    /** `app_voice_detector_process`. */
    method Process(evt: Event) returns (ret: int)
      requires Valid()
      modifies this, queue, queue.data
      ensures Valid() && (View(), ret) == Handled(old(View()), evt)
    {
      hide CommandsFor, StatusAfter, PushAll;
      var cmds := Select(evt);
      ret := queue.SendCmdArray(cmds);
      var executed;
      ret, executed := Run(EXEC_CMD);
      if evt == CloseAll {
        init := false;
      }
    }
  }

  /** `done` are the commands taken so far, and the loop goes on or has just ended. */
  ghost predicate InRounds(d: Det, mode: Mode, done: seq<Cmd>, status: Cmd, queue: Queue, exit: bool, code: int)
    requires d.queue.Valid()
  {
    var items, k := d.queue.items, |done|;
    && k <= |items| && done == items[..k] && queue == Dropped(d.queue, k)
    && status == StatusAfter(d.configured, d.status, done)
    && if exit then k == Taken(mode, items) && code == ExitCode(d.configured, done)
       else code == 0 && GoesOn(mode, items, k)
  }

  ghost predicate GoesOn(mode: Mode, items: seq<Cmd>, k: nat) {
    match mode
    case ONESHOT => k == 0
    case EXEC_CMD => k < |items| || items == []
    case LOOP => k <= FirstExit(items) < |items|
  }

  lemma RoundsStart(d: Det, mode: Mode)
    requires d.queue.Valid() && (mode == LOOP ==> CMD_EXIT in d.queue.items)
    ensures InRounds(d, mode, [], d.status, d.queue, false, 0)
  {
  }

  /** Whether a round is the last one. */
  predicate Ends(mode: Mode, cmd: int, empty: bool) {
    match mode
    case ONESHOT => true
    case EXEC_CMD => empty
    case LOOP => cmd == CMD_EXIT
  }

  /** A round takes the next command, if there is one, and ends the loop when the mode is content. */
  lemma RoundMade(d: Det, mode: Mode, done: seq<Cmd>, status: Cmd, queue: Queue)
    requires d.queue.Valid() && InRounds(d, mode, done, status, queue, false, 0) && queue.Valid()
    ensures |done| <= |d.queue.items|
    ensures queue.items == [] ==> Ends(mode, -2, true) && InRounds(d, mode, done, status, queue, true, 0)
    ensures queue.items != [] ==>
              var c, rest := queue.items[0], Pop(queue);
              var err := Err(d.configured, c);
              var ends := Ends(mode, c, rest.items == []);
              && |done| < |d.queue.items|
              && InRounds(d, mode, done + [c], if err == 0 && !IsClock(c) then c else status, rest, ends,
                          if ends then err else 0)
  {
    if queue.items != [] {
      var items, k, c := d.queue.items, |done|, queue.items[0];
      assert (done + [c])[..k] == done && done + [c] == items[..k + 1];
      assert Pop(queue) == Dropped(d.queue, k + 1);
    }
  }

  lemma RoundsEnd(d: Det, mode: Mode, done: seq<Cmd>, status: Cmd, queue: Queue, code: int)
    requires d.init && d.queue.Valid() && InRounds(d, mode, done, status, queue, true, code)
    ensures done == Executes(d, mode) && (d.(status := status, queue := queue), code) == Ran(d, mode)
  {
  }

  // ---------------------------------------------------------------------------------------------
  // Failures
  // ---------------------------------------------------------------------------------------------

  ghost predicate SomeFail(configured: bool, cmds: seq<Cmd>) {
    exists k | 0 <= k < |cmds| :: Err(configured, cmds[k]) != 0
  }

  /** The exit code of a run on an open detector says whether one of its commands failed, unless the
      capture stream is not set up and opening it was neither left out nor the last command. */
  lemma ExitCodeTells(d: Det, mode: Mode)
    requires d.init && d.queue.Valid()
    ensures var cmds := Executes(d, mode);
            (Ran(d, mode).1 != 0 <==> SomeFail(d.configured, cmds)) <==>
            d.configured || CMD_AUD_CAP_OPEN !in cmds || cmds[|cmds| - 1] == CMD_AUD_CAP_OPEN
  {
    var cmds := Executes(d, mode);
    if CMD_AUD_CAP_OPEN in cmds && !d.configured {
      var k :| 0 <= k < |cmds| && cmds[k] == CMD_AUD_CAP_OPEN;
      assert Err(d.configured, cmds[k]) != 0;
    }
  }

  /** The results by number: a closed detector runs nothing, an open one cannot be opened, and only opening
      the capture stream fails. */
  lemma CodesByNumber(d: Det, mode: Mode, c: Cmd, usable: bool)
    requires d.queue.Valid()
    ensures !d.init ==> Ran(d, mode) == (d, -2) && SetUpWith(d, usable) == (d, -2)
    ensures d.init ==> SetUpWith(d, usable) == (Det(true, d.status, d.queue, usable), 0)
    ensures Reopened(d) == if d.init then (d, -2) else (Det(true, 0, Queue([], 0), false), 0)
    ensures Err(d.configured, c) == if c == 8 && !d.configured then -1 else 0
    ensures StatusAfter(d.configured, d.status, [c]) == if c >= 10 || (c == 8 && !d.configured) then d.status else c
  {
    assert [c][..0] == [];
  }

  /** How far a run goes: one command; all that wait; or up to the first EXIT, which is command 1. What it
      does not take stays queued. */
  lemma RunByMode(d: Det, k: nat)
    requires d.init && d.queue.Valid()
    ensures Executes(d, EXEC_CMD) == d.queue.items && Ran(d, EXEC_CMD).0.queue == Queue([], 0)
    ensures Executes(d, ONESHOT) == if d.queue.items == [] then [] else [d.queue.items[0]]
    ensures |d.queue.items| > 1 ==> Ran(d, ONESHOT).0.queue == Queue(d.queue.items[1..], d.queue.used)
    ensures k < |d.queue.items| && d.queue.items[k] == 1 && (forall i | 0 <= i < k :: d.queue.items[i] != 1) ==>
              && Executes(d, LOOP) == d.queue.items[..k + 1]
              && (k + 1 < |d.queue.items| ==>
                    Ran(d, LOOP).0.queue == Queue(d.queue.items[k + 1..], d.queue.used))
  {
    var items := d.queue.items;
    if k < |items| && items[k] == 1 && (forall i | 0 <= i < k :: items[i] != 1) {
      assert FirstExit(items) == k;
    }
    hide StatusAfter, ExitCode;
  }

  function Target(evt: Event): Cmd {
    match evt
    case VadStart => CMD_VAD_START
    case AudCapStart => CMD_VAD_CLOSE
    case CloseAll => CMD_EXIT
    case OtherEvent => CMD_EXIT
  }

  lemma LastButClock(configured: bool, status: Cmd, cmds: seq<Cmd>)
    requires |cmds| >= 2 && Err(configured, cmds[|cmds| - 1]) == 0 && Err(configured, cmds[|cmds| - 2]) == 0
    ensures var n := |cmds|;
            StatusAfter(configured, status, cmds)
            == if !IsClock(cmds[n - 1]) then cmds[n - 1]
               else if !IsClock(cmds[n - 2]) then cmds[n - 2]
               else StatusAfter(configured, status, cmds[..n - 2])
  {
    var n := |cmds|;
    assert cmds[..n - 1][..n - 2] == cmds[..n - 2];
  }

  lemma OpenWaits(d: Det, evt: Event)
    requires d.queue == Queue([], 0)
    ensures Waiting(d, evt).items == CommandsFor(evt, d.status)
  {
    hide CommandsFor;
    PushAllFits(d.queue, CommandsFor(evt, d.status));
    var cmds := CommandsFor(evt, d.status);
    assert cmds[..|cmds|] == cmds;
  }

  /** What an event executes. */
  function Executed(d: Det, evt: Event): seq<Cmd>
    requires d.queue.Valid()
  {
    Executes(d.(queue := Waiting(d, evt)), EXEC_CMD)
  }

  /** An event on an open detector empties the queue, sets the status that belongs to it and reports
      success, whether or not the capture stream opens. */
  lemma EventSetsStatus(d: Det, evt: Event)
    requires d.init && d.queue == Queue([], 0)
    ensures Executed(d, evt) == CommandsFor(evt, d.status)
    ensures Handled(d, evt) == (Det(evt != CloseAll, Target(evt), Queue([], 0), d.configured), 0)
  {
    hide StatusAfter;
    OpenWaits(d, evt);
    var cmds := CommandsFor(evt, d.status);
    assert cmds[..|cmds|] == cmds;
    LastButClock(d.configured, d.status, cmds);
  }

  /** The commands of every event by number: stop and close the capture if it runs, open and start the voice
      activity detection, slow the clock; open and start the capture, stop and close the detection; close
      what runs and exit. */
  lemma CommandsByNumber(d: Det, evt: Event)
    requires d.init && d.queue == Queue([], 0)
    ensures Executed(d, evt)
         == match evt
            case VadStart => if d.status == 5 then [7, 9, 2, 3, 10] else [2, 3, 10]
            case AudCapStart => [8, 6, 4, 5]
            case CloseAll => if d.status == 5 then [7, 9, 1] else [4, 5, 1]
            case OtherEvent => [7, 9, 4, 5, 1]
  {
    EventSetsStatus(d, evt);
    hide Executed;
  }

  /** The clock after some commands: the last clock command sets it, in kHz at 32 and in MHz else. */
  function ClockAfter(clock: nat, cmds: seq<Cmd>): nat {
    if cmds == [] then clock
    else
      var n := |cmds| - 1;
      if cmds[n] == 10 then 32 else if cmds[n] == 11 then 26000 else if cmds[n] == 12 then 52000
      else if cmds[n] == 13 then 104000 else ClockAfter(clock, cmds[..n])
  }

  /** An event finds the clock at 26 MHz and leaves it at 32 kHz exactly when it starts the voice activity
      detection. */
  lemma EventSetsClock(d: Det, evt: Event)
    requires d.init && d.queue == Queue([], 0)
    ensures ClockAfter(26000, Executed(d, evt)) == if evt == VadStart then 32 else 26000
  {
    CommandsByNumber(d, evt);
    var cmds := Executed(d, evt);
    hide Executed;
    if evt != VadStart {
      NoClock(26000, cmds);
    }
  }

  lemma {:induction false} NoClock(clock: nat, cmds: seq<Cmd>)
    requires forall i | 0 <= i < |cmds| :: cmds[i] < 10
    ensures ClockAfter(clock, cmds) == clock
  {
    if cmds != [] {
      NoClock(clock, cmds[..|cmds| - 1]);
    }
  }

  /** So a failure goes unreported exactly when the capture is to start and no stream is set up. */
  lemma FailureUnreported(d: Det, evt: Event)
    requires d.init && d.queue == Queue([], 0)
    ensures SomeFail(d.configured, Executed(d, evt)) && Handled(d, evt).1 == 0 <==> evt == AudCapStart && !d.configured
  {
    EventSetsStatus(d, evt);
    hide Handled, Executed;
    if evt == AudCapStart && !d.configured {
      assert Err(d.configured, ARR_CAP_START[0]) != 0;
    }
  }

  // ---------------------------------------------------------------------------------------------
  // Events and devices
  // ---------------------------------------------------------------------------------------------

  /** The voice activity detector and the capture stream. */
  datatype Devices = Devices(vadOpen: bool, vadOn: bool, capOpen: bool, capOn: bool)

  /** Open what is closed, start what is open and stopped, stop what runs, close what is stopped. */
  predicate InOrder(d: Devices, c: Cmd) {
    if c == CMD_VAD_OPEN then !d.vadOpen
    else if c == CMD_VAD_START then d.vadOpen && !d.vadOn
    else if c == CMD_VAD_STOP then d.vadOpen && d.vadOn
    else if c == CMD_VAD_CLOSE then d.vadOpen && !d.vadOn
    else if c == CMD_AUD_CAP_OPEN then !d.capOpen
    else if c == CMD_AUD_CAP_START then d.capOpen && !d.capOn
    else if c == CMD_AUD_CAP_STOP then d.capOpen && d.capOn
    else if c == CMD_AUD_CAP_CLOSE then d.capOpen && !d.capOn
    else true
  }

  /** A command that fails leaves the devices alone. */
  function Act(configured: bool, d: Devices, c: Cmd): Devices {
    if Err(configured, c) != 0 then d
    else if c == CMD_VAD_OPEN then d.(vadOpen := true)
    else if c == CMD_VAD_START then d.(vadOn := true)
    else if c == CMD_VAD_STOP then d.(vadOn := false)
    else if c == CMD_VAD_CLOSE then d.(vadOpen := false)
    else if c == CMD_AUD_CAP_OPEN then d.(capOpen := true)
    else if c == CMD_AUD_CAP_START then d.(capOn := true)
    else if c == CMD_AUD_CAP_STOP then d.(capOn := false)
    else if c == CMD_AUD_CAP_CLOSE then d.(capOpen := false)
    else d
  }

  predicate AllInOrder(configured: bool, d: Devices, cmds: seq<Cmd>)
    decreases |cmds|
  {
    cmds == [] || (InOrder(d, cmds[0]) && AllInOrder(configured, Act(configured, d, cmds[0]), cmds[1..]))
  }

  function ActAll(configured: bool, d: Devices, cmds: seq<Cmd>): Devices
    decreases |cmds|
  {
    if cmds == [] then d else ActAll(configured, Act(configured, d, cmds[0]), cmds[1..])
  }

  /** The devices as an event leaves them. */
  function DevicesAt(status: Cmd): Devices {
    if status == CMD_VAD_START then Devices(true, true, false, false)
    else if status == CMD_VAD_CLOSE then Devices(false, false, true, true)
    else Devices(false, false, false, false)
  }

  predicate Settled(status: Cmd) {
    status == CMD_IDLE || status == CMD_EXIT || status == CMD_VAD_START || status == CMD_VAD_CLOSE
  }

  /** The events that fit a status. */
  predicate Due(configured: bool, status: Cmd, evt: Event) {
    match evt
    case VadStart => status != CMD_VAD_START
    case AudCapStart => status == CMD_VAD_START && configured
    case CloseAll => status == CMD_VAD_START || status == CMD_VAD_CLOSE
    case OtherEvent => false
  }

  lemma Unroll(configured: bool, d: Devices, cmds: seq<Cmd>)
    requires cmds != []
    ensures var e := Act(configured, d, cmds[0]);
            && (AllInOrder(configured, d, cmds) <==> InOrder(d, cmds[0]) && AllInOrder(configured, e, cmds[1..]))
            && ActAll(configured, d, cmds) == ActAll(configured, e, cmds[1..])
  {
  }

  /** The command list of an event treats the devices in order exactly when the event fits the status,
      and then leaves them as its own status says. */
  lemma EventInOrder(configured: bool, status: Cmd, evt: Event)
    requires Settled(status)
    ensures AllInOrder(configured, DevicesAt(status), CommandsFor(evt, status)) <==> Due(configured, status, evt)
    ensures Due(configured, status, evt) ==>
              ActAll(configured, DevicesAt(status), CommandsFor(evt, status)) == DevicesAt(Target(evt))
  {
    FiveSteps(configured, DevicesAt(status), CommandsFor(evt, status));
  }

  lemma FiveSteps(configured: bool, d: Devices, cmds: seq<Cmd>)
    requires 3 <= |cmds| <= 5
    ensures var n := |cmds|;
            var d1 := Act(configured, d, cmds[0]);
            var d2 := Act(configured, d1, cmds[1]);
            var d3 := Act(configured, d2, cmds[2]);
            var d4 := if n > 3 then Act(configured, d3, cmds[3]) else d3;
            && (AllInOrder(configured, d, cmds) <==>
                InOrder(d, cmds[0]) && InOrder(d1, cmds[1]) && InOrder(d2, cmds[2])
                && (n > 3 ==> InOrder(d3, cmds[3])) && (n > 4 ==> InOrder(d4, cmds[4])))
            && ActAll(configured, d, cmds) == if n > 4 then Act(configured, d4, cmds[4]) else d4
  {
    hide Act, InOrder;
    Unroll(configured, d, cmds);
    var d1 := Act(configured, d, cmds[0]);
    Unroll(configured, d1, cmds[1..]);
    var d2 := Act(configured, d1, cmds[1]);
    assert cmds[1..][1..] == cmds[2..];
    Unroll(configured, d2, cmds[2..]);
    assert cmds[2..][1..] == cmds[3..];
    var d3 := Act(configured, d2, cmds[2]);
    if |cmds| > 3 {
      Unroll(configured, d3, cmds[3..]);
      assert cmds[3..][1..] == cmds[4..];
      if |cmds| > 4 {
        Unroll(configured, Act(configured, d3, cmds[3]), cmds[4..]);
      }
    }
  }

  /** Events, opening the detector again, and setting up its capture stream. */
  datatype Action = Send(evt: Event) | Reopen | SetUp(usable: bool)

  function Does(d: Det, act: Action): seq<Cmd>
    requires d.queue.Valid()
  {
    if act.Send? then Executed(d, act.evt) else []
  }

  function After(d: Det, act: Action): (e: Det)
    requires d.queue.Valid()
    ensures e.queue.Valid()
  {
    match act
    case Send(evt) => Handled(d, evt).0
    case Reopen => Reopened(d).0
    case SetUp(usable) => SetUpWith(d, usable).0
  }

  /** An event fits when it is due, or when the detector is closed and so executes nothing. */
  predicate Fits(d: Det, act: Action) {
    act.Send? && d.init ==> Due(d.configured, d.status, act.evt)
  }

  predicate AllDue(d: Det, acts: seq<Action>)
    requires d.queue.Valid()
    decreases |acts|
  {
    acts == [] || (Fits(d, acts[0]) && AllDue(After(d, acts[0]), acts[1..]))
  }

  predicate RunInOrder(dev: Devices, d: Det, acts: seq<Action>)
    requires d.queue.Valid()
    decreases |acts|
  {
    acts == [] ||
    (AllInOrder(d.configured, dev, Does(d, acts[0]))
     && RunInOrder(ActAll(d.configured, dev, Does(d, acts[0])), After(d, acts[0]), acts[1..]))
  }

  /** An open detector has an empty queue; a closed one has left the devices closed. */
  predicate AtRest(d: Det) {
    && d.queue.Valid() && Settled(d.status)
    && if d.init then d.queue == Queue([], 0) else d.status == CMD_IDLE || d.status == CMD_EXIT
  }

  lemma ActionAtRest(d: Det, act: Action)
    requires AtRest(d) && Fits(d, act)
    ensures AtRest(After(d, act)) && AllInOrder(d.configured, DevicesAt(d.status), Does(d, act))
    ensures ActAll(d.configured, DevicesAt(d.status), Does(d, act)) == DevicesAt(After(d, act).status)
  {
    if act.Send? && d.init {
      EventSetsStatus(d, act.evt);
      EventInOrder(d.configured, d.status, act.evt);
      hide AllInOrder, ActAll, CommandsFor, Handled, Executed;
    }
  }

  lemma NotDueOutOfOrder(d: Det, evt: Event)
    requires AtRest(d) && d.init && !Due(d.configured, d.status, evt)
    ensures !AllInOrder(d.configured, DevicesAt(d.status), Executed(d, evt))
  {
    EventSetsStatus(d, evt);
    EventInOrder(d.configured, d.status, evt);
    hide AllInOrder, CommandsFor, DevicesAt, Due, Executed;
  }

  /** Whole runs, over closing, opening again and setting up: the devices are treated in order from first
      to last exactly when every event that reaches an open detector fits its status, and the capture
      starts only with a stream set up since the detector was opened. */
  lemma {:induction false} RunsInOrder(d: Det, acts: seq<Action>)
    requires d.queue.Valid() && AtRest(d)
    ensures RunInOrder(DevicesAt(d.status), d, acts) <==> AllDue(d, acts)
    decreases |acts|
  {
    hide AllInOrder, ActAll, Due, DevicesAt, AtRest, Executed, After;
    if acts != [] {
      if Fits(d, acts[0]) {
        ActionAtRest(d, acts[0]);
        RunsInOrder(After(d, acts[0]), acts[1..]);
      } else {
        NotDueOutOfOrder(d, acts[0].evt);
      }
    }
  }

  /** A detector opened again captures with a stream it has not opened. */
  lemma ReopenedWithoutStream()
    ensures var d := Det(true, CMD_VAD_CLOSE, Queue([], 0), true);
            !RunInOrder(DevicesAt(d.status), d, [Send(CloseAll), Reopen, Send(VadStart), Send(AudCapStart)])
  {
    var d := Det(true, CMD_VAD_CLOSE, Queue([], 0), true);
    var acts := [Send(CloseAll), Reopen, Send(VadStart), Send(AudCapStart)];
    RunsInOrder(d, acts);
    hide RunInOrder;
    EventSetsStatus(d, CloseAll);
    var e := Reopened(After(d, Send(CloseAll))).0;
    EventSetsStatus(e, VadStart);
    hide Handled;
    assert acts[1..][1..][1..] == [Send(AudCapStart)];
  }

  /** What the wake-up callbacks send, by whether a voice was found. */
  function WokenBy(found: bool, status: Cmd): Option<Event> {
    if status != CMD_VAD_START then None else Some(if found then AudCapStart else VadStart)
  }

  /** A wake-up without a voice found opens a voice activity detector that is open already. */
  lemma WakeUpFits(d: Det, found: bool)
    requires AtRest(d) && d.init && WokenBy(found, d.status).Some?
    ensures AllInOrder(d.configured, DevicesAt(d.status), Executed(d, WokenBy(found, d.status).value))
            <==> found && d.configured
  {
    EventSetsStatus(d, WokenBy(found, d.status).value);
    EventInOrder(d.configured, d.status, WokenBy(found, d.status).value);
    hide AllInOrder, Executed;
  }
}
