/**
 * The control loop `ProcessMonitor.start`. The operating system is replaced
 * by a script of events, one per pass of the monitoring loop: either `poll()`
 * found the child gone with some exit code, or the child was live, the
 * interval elapsed and the health check ran (and, when it asked for a
 * restart, the termination went one of its possible ways). Each event also
 * carries the raw lines the reader thread took in since the previous one.
 *
 * `Run` is the specification of the loop on values; `ProcessMonitor.Start`
 * runs the two nested loops of the source and is proved to end in the state
 * `Run` gives. The lemmas below say which scripts end supervision and when a
 * new child is spawned.
 */
module Supervisor {
  import opened Wrappers
  import opened Text
  import opened OutputBuffer
  import HealthCheck

  /** The first argument of `Popen`: one shell command line, or the token list. */
  datatype CommandLine = ShellLine(line: string) | ArgList(args: seq<string>)

  /** The tokens a command form stands for. */
  function Tokens(form: CommandLine): seq<string>
  {
    match form
    case ShellLine(line) => [line]
    case ArgList(args) => args
  }

  /**
   * `cmd_to_run` (coverseer.py:100): the list itself when it has more than one
   * token, its only token otherwise; None stands for the IndexError an empty
   * command raises.
   */
  function CommandForm(command: seq<string>): (r: Option<CommandLine>)
    ensures r.None? <==> command == []
    ensures r.Some? ==> Tokens(r.value) == command
    ensures r.Some? ==> (r.value.ShellLine? <==> |command| == 1)
  {
    if |command| > 1 then Some(ArgList(command))
    else if |command| == 1 then Some(ShellLine(command[0]))
    else None
  }

  /** How an oracle-triggered termination ended. */
  datatype Shutdown =
    | ExitedInGrace(code: int)          // wait(timeout=5) returned; poll() then gives the code
    | Killed(pollAfter: Option<int>)    // the wait timed out, kill() was sent; poll() gives this

  /** One pass of the monitoring loop, as the environment decides it. */
  datatype Event =
    | Exited(output: seq<string>, code: int)
    | Tick(output: seq<string>, reply: HealthCheck.CallOutcome, shutdown: Shutdown)

  /** What the supervisor does to the outside world, in order. */
  datatype Action = Spawn(cmd: CommandLine) | AskOracle | Terminate | Kill | Backoff

  /** Where control is: at the guard of the outer loop, or inside the monitoring loop. */
  datatype Phase = AtLoopHead | Monitoring

  datatype State = State(stopRequested: bool, phase: Phase, lines: seq<string>, log: seq<Action>)

  /** The exit-code branch after the monitoring loop (coverseer.py:128-135). */
  function ExitBranch(s: State, returnCode: Option<int>): (r: State)
    ensures r.phase == AtLoopHead && r.lines == s.lines
    ensures r.stopRequested <==> s.stopRequested || returnCode == Some(0)
    ensures r.log == s.log + (if returnCode.Some? && returnCode.value != 0 then [Backoff] else [])
  {
    match returnCode
    case None => s.(phase := AtLoopHead)
    case Some(code) =>
      if code == 0 then s.(stopRequested := true, phase := AtLoopHead)
      else s.(log := s.log + [Backoff], phase := AtLoopHead)
  }

  /** One pass of the monitoring loop on `event`, through the exit-code branch when the loop is left. */
  function Step(s: State, event: Event, parse: string -> HealthCheck.Parse): State
  {
    var lines := Feed(s.lines, event.output);
    match event
    case Exited(_, code) => ExitBranch(s.(lines := lines), Some(code))
    case Tick(_, reply, shutdown) =>
      var asked := s.log + OracleCalls(lines);
      if !HealthCheck.CheckProcess(Join("\n", lines), reply, parse) then s.(lines := lines, log := asked)
      else
        match shutdown
        case ExitedInGrace(code) => ExitBranch(s.(lines := lines, log := asked + [Terminate]), Some(code))
        case Killed(pollAfter) => ExitBranch(s.(lines := lines, log := asked + [Terminate, Kill]), pollAfter)
  }

  /** The oracle call `_check_process` makes on the buffer `lines`: none when the snapshot is empty. */
  function OracleCalls(lines: seq<string>): seq<Action>
  {
    if Join("\n", lines) == "" then [] else [AskOracle]
  }

  /** `start` on a script: spawn at the loop head unless stopped, then consume events until stopped. */
  function Run(s: State, script: seq<Event>, command: seq<string>, parse: string -> HealthCheck.Parse): State
    decreases |script|, if s.phase.AtLoopHead? then 1 else 0
  {
    if s.stopRequested then s
    else if s.phase.AtLoopHead? then
      match CommandForm(command)
      case None => s
      case Some(form) => Run(s.(phase := Monitoring, log := s.log + [Spawn(form)]), script, command, parse)
    else if script == [] then s
    else Run(Step(s, script[0], parse), script[1..], command, parse)
  }

  /** The concatenated raw output carried by the events of `script`. */
  function Outputs(script: seq<Event>): seq<string>
  {
    if script == [] then [] else script[0].output + Outputs(script[1..])
  }

  /** An event whose exit code, once observed, is zero. */
  predicate ZeroExit(event: Event)
  {
    match event
    case Exited(_, code) => code == 0
    case Tick(_, _, shutdown) => shutdown == ExitedInGrace(0) || shutdown == Killed(Some(0))
  }

  /** `n` rounds of backing off and spawning `form` again. */
  function Respawns(n: nat, form: CommandLine): seq<Action>
  {
    if n == 0 then [] else [Backoff, Spawn(form)] + Respawns(n - 1, form)
  }

  /** Running the rest of a script from event `i` on is taking one step on it, then running the rest. */
  lemma RunStep(s: State, script: seq<Event>, i: nat, command: seq<string>, parse: string -> HealthCheck.Parse)
    requires !s.stopRequested && s.phase.Monitoring? && i < |script|
    ensures Run(s, script[i..], command, parse) == Run(Step(s, script[i], parse), script[i + 1..], command, parse)
  {
    assert script[i..][0] == script[i];
    assert script[i..][1..] == script[i + 1..];
  }

  /** Running two scripts one after the other is running their concatenation. */
  lemma {:induction false} RunSplit(s: State, a: seq<Event>, b: seq<Event>,
                                    command: seq<string>, parse: string -> HealthCheck.Parse)
    ensures Run(s, a + b, command, parse) == Run(Run(s, a, command, parse), b, command, parse)
    decreases |a|, if s.phase.AtLoopHead? then 1 else 0
  {
    if s.stopRequested {
    } else if s.phase.AtLoopHead? {
      match CommandForm(command)
      case None =>
      case Some(form) =>
        RunSplit(s.(phase := Monitoring, log := s.log + [Spawn(form)]), a, b, command, parse);
    } else if a == [] {
      assert a + b == b;
    } else {
      assert (a + b)[0] == a[0];
      assert (a + b)[1..] == a[1..] + b;
      RunSplit(Step(s, a[0], parse), a[1..], b, command, parse);
    }
  }

  /** A run ends stopped, or with a live child under monitoring (or, for an empty command, where it began). */
  lemma {:induction false} RunSettles(s: State, script: seq<Event>,
                                      command: seq<string>, parse: string -> HealthCheck.Parse)
    requires command != []
    ensures Run(s, script, command, parse).stopRequested || Run(s, script, command, parse).phase.Monitoring?
    decreases |script|, if s.phase.AtLoopHead? then 1 else 0
  {
    if s.stopRequested {
    } else if s.phase.AtLoopHead? {
      RunSettles(s.(phase := Monitoring, log := s.log + [Spawn(CommandForm(command).value)]), script, command, parse);
    } else if script != [] {
      RunSettles(Step(s, script[0], parse), script[1..], command, parse);
    }
  }

  /**
   * A child that exits on its own with code 0 ends supervision: the run is
   * stopped, and nothing after that event is consumed or spawned.
   */
  lemma CleanExitEndsSupervision(s: State, script: seq<Event>, k: nat,
                                 command: seq<string>, parse: string -> HealthCheck.Parse)
    requires command != []
    requires k < |script| && script[k].Exited? && script[k].code == 0
    ensures Run(s, script, command, parse).stopRequested
    ensures Run(s, script, command, parse) == Run(s, script[..k + 1], command, parse)
  {
    var before, event, after := script[..k], script[k], script[k + 1..];
    assert script == before + ([event] + after);
    assert script[..k + 1] == before + [event];
    RunSplit(s, before, [event] + after, command, parse);
    RunSplit(s, before, [event], command, parse);
    var r := Run(s, before, command, parse);
    RunSettles(s, before, command, parse);
    RunSplit(r, [event], after, command, parse);
    if !r.stopRequested {
      assert ([event])[1..] == [];
      assert Run(r, [event], command, parse) == Step(r, event, parse);
    }
  }

  /**
   * A stream of events none of which shows exit code 0 never ends
   * supervision: every event is consumed, and the buffer, never cleared
   * across respawns, holds the last lines of all output in order.
   */
  lemma {:induction false} CrashLoopContinues(s: State, script: seq<Event>,
                                              command: seq<string>, parse: string -> HealthCheck.Parse)
    requires command != [] && !s.stopRequested && |s.lines| <= MaxOutputLines
    requires forall k :: 0 <= k < |script| ==> !ZeroExit(script[k])
    ensures !Run(s, script, command, parse).stopRequested
    ensures Run(s, script, command, parse).phase.Monitoring?
    ensures Run(s, script, command, parse).lines == Feed(s.lines, Outputs(script))
    decreases |script|, if s.phase.AtLoopHead? then 1 else 0
  {
    if s.phase.AtLoopHead? {
      CrashLoopContinues(s.(phase := Monitoring, log := s.log + [Spawn(CommandForm(command).value)]),
                         script, command, parse);
    } else if script == [] {
      assert s.lines + Stored([]) == s.lines;
    } else {
      var event := script[0];
      assert !ZeroExit(event);
      var t := Step(s, event, parse);
      assert !t.stopRequested;
      CrashLoopContinues(t, script[1..], command, parse);
      FeedConcat(s.lines, event.output, Outputs(script[1..]));
    }
  }

  /** A step only appends to the log, and never a spawn: spawning happens at the loop head. */
  lemma StepSpawnsNothing(s: State, event: Event, parse: string -> HealthCheck.Parse)
    ensures s.log <= Step(s, event, parse).log
    ensures forall j :: |s.log| <= j < |Step(s, event, parse).log| ==> !Step(s, event, parse).log[j].Spawn?
  {
    var lines := Feed(s.lines, event.output);
    var extra: seq<Action> := match event
      case Exited(_, code) => if code != 0 then [Backoff] else []
      case Tick(_, reply, shutdown) =>
        if !HealthCheck.CheckProcess(Join("\n", lines), reply, parse) then OracleCalls(lines)
        else
          OracleCalls(lines) + [Terminate] + (if shutdown.Killed? then [Kill] else []) +
          (if ReturnCode(shutdown).Some? && ReturnCode(shutdown).value != 0 then [Backoff] else []);
    assert Step(s, event, parse).log == s.log + extra;
    assert forall a :: a in extra ==> !a.Spawn?;
  }

  /** Every child spawned during a run is spawned with the same command form, and the log only grows. */
  lemma {:induction false} SpawnsUseCommand(s: State, script: seq<Event>,
                                            command: seq<string>, parse: string -> HealthCheck.Parse)
    ensures s.log <= Run(s, script, command, parse).log
    ensures forall j :: |s.log| <= j < |Run(s, script, command, parse).log| &&
              Run(s, script, command, parse).log[j].Spawn?
              ==> CommandForm(command) == Some(Run(s, script, command, parse).log[j].cmd)
    decreases |script|, if s.phase.AtLoopHead? then 1 else 0
  {
    if s.stopRequested {
    } else if s.phase.AtLoopHead? {
      match CommandForm(command)
      case None =>
      case Some(form) =>
        SpawnsUseCommand(s.(phase := Monitoring, log := s.log + [Spawn(form)]), script, command, parse);
    } else if script != [] {
      StepSpawnsNothing(s, script[0], parse);
      SpawnsUseCommand(Step(s, script[0], parse), script[1..], command, parse);
    }
  }

  /** The buffer stays within its bound through any run. */
  lemma {:induction false} RunKeepsBufferBound(s: State, script: seq<Event>,
                                               command: seq<string>, parse: string -> HealthCheck.Parse)
    requires |s.lines| <= MaxOutputLines
    ensures |Run(s, script, command, parse).lines| <= MaxOutputLines
    decreases |script|, if s.phase.AtLoopHead? then 1 else 0
  {
    if s.stopRequested {
    } else if s.phase.AtLoopHead? {
      match CommandForm(command)
      case None =>
      case Some(form) =>
        RunKeepsBufferBound(s.(phase := Monitoring, log := s.log + [Spawn(form)]), script, command, parse);
    } else if script != [] {
      RunKeepsBufferBound(Step(s, script[0], parse), script[1..], command, parse);
    }
  }

  /**
   * A child that keeps crashing is retried indefinitely: after `n` nonzero
   * exits the supervisor has backed off and respawned the same command `n` times.
   */
  lemma {:induction false} CrashesAreRetried(s: State, script: seq<Event>,
                                             command: seq<string>, parse: string -> HealthCheck.Parse)
    requires command != [] && !s.stopRequested && s.phase.Monitoring?
    requires forall k :: 0 <= k < |script| ==> script[k].Exited? && script[k].code != 0
    ensures Run(s, script, command, parse).log == s.log + Respawns(|script|, CommandForm(command).value)
    decreases |script|
  {
    var form := CommandForm(command).value;
    if script != [] {
      var t := Step(s, script[0], parse);
      assert t.log == s.log + [Backoff];
      var u := t.(phase := Monitoring, log := t.log + [Spawn(form)]);
      assert Run(s, script, command, parse) == Run(u, script[1..], command, parse);
      CrashesAreRetried(u, script[1..], command, parse);
      assert s.log + [Backoff] + [Spawn(form)] + Respawns(|script| - 1, form)
          == s.log + Respawns(|script|, form);
    }
  }

  /** A nonzero exit: back off, then spawn the same command again, keeping the buffer. */
  lemma NonzeroExitRespawns(s: State, output: seq<string>, code: int,
                            command: seq<string>, parse: string -> HealthCheck.Parse)
    requires command != [] && !s.stopRequested && s.phase.Monitoring? && code != 0
    ensures Run(s, [Exited(output, code)], command, parse)
         == State(false, Monitoring, Feed(s.lines, output), s.log + [Backoff, Spawn(CommandForm(command).value)])
  {
    RunSingle(s, Exited(output, code), command, parse);
  }

  /** A health check that finds nothing wrong leaves the child running. */
  lemma HealthyTickKeepsChild(s: State, output: seq<string>, reply: HealthCheck.CallOutcome, shutdown: Shutdown,
                              command: seq<string>, parse: string -> HealthCheck.Parse)
    requires !s.stopRequested && s.phase.Monitoring?
    requires !HealthCheck.CheckProcess(Join("\n", Feed(s.lines, output)), reply, parse)
    ensures Run(s, [Tick(output, reply, shutdown)], command, parse)
         == s.(lines := Feed(s.lines, output), log := s.log + OracleCalls(Feed(s.lines, output)))
  {
    RunStep(s, [Tick(output, reply, shutdown)], 0, command, parse);
    assert [Tick(output, reply, shutdown)][1..] == [];
  }

  /** The state after a run of one event from `s`: spawn again unless stopped or still monitoring. */
  function Respawned(t: State, form: CommandLine): State
  {
    if t.stopRequested || t.phase.Monitoring? then t
    else t.(phase := Monitoring, log := t.log + [Spawn(form)])
  }

  /** Running a single event is one step, followed by the respawn at the loop head. */
  lemma RunSingle(s: State, event: Event, command: seq<string>, parse: string -> HealthCheck.Parse)
    requires command != [] && !s.stopRequested && s.phase.Monitoring?
    ensures Run(s, [event], command, parse) == Respawned(Step(s, event, parse), CommandForm(command).value)
  {
    RunStep(s, [event], 0, command, parse);
    assert [event][1..] == [];
  }

  /**
   * After the terminate (and kill) of an unhealthy child, the exit-code
   * branch applies to what `poll()` says: code 0 stops supervision, another
   * code backs off and respawns, and a child still not reaped is respawned at
   * once, without backoff.
   */
  lemma AfterTermination(s: State, shutdown: Shutdown, form: CommandLine)
    requires !s.stopRequested
    ensures var killed := if shutdown.Killed? then [Kill] else [];
            var r := Respawned(ExitBranch(s.(log := s.log + [Terminate] + killed), ReturnCode(shutdown)), form);
            r.lines == s.lines &&
            (r.stopRequested <==> shutdown == ExitedInGrace(0) || shutdown == Killed(Some(0))) &&
            (shutdown == ExitedInGrace(0) ==> r.log == s.log + [Terminate]) &&
            (shutdown == Killed(Some(0)) ==> r.log == s.log + [Terminate, Kill]) &&
            (shutdown.ExitedInGrace? && shutdown.code != 0 ==> r.log == s.log + [Terminate, Backoff, Spawn(form)]) &&
            (shutdown == Killed(None) ==> r.log == s.log + [Terminate, Kill, Spawn(form)]) &&
            (shutdown.Killed? && shutdown.pollAfter.Some? && shutdown.pollAfter.value != 0 ==>
               r.log == s.log + [Terminate, Kill, Backoff, Spawn(form)])
  {
  }

  /**
   * A health check that asks for a restart has consulted the oracle, then
   * terminates the child (killing it when it outlives the grace period); what
   * follows is `AfterTermination` applied to the buffer with the event's
   * output taken in.
   */
  lemma UnhealthyChildIsReplaced(s: State, output: seq<string>, reply: HealthCheck.CallOutcome, shutdown: Shutdown,
                                 command: seq<string>, parse: string -> HealthCheck.Parse)
    requires command != [] && !s.stopRequested && s.phase.Monitoring?
    requires HealthCheck.CheckProcess(Join("\n", Feed(s.lines, output)), reply, parse)
    ensures var killed := if shutdown.Killed? then [Kill] else [];
            Run(s, [Tick(output, reply, shutdown)], command, parse)
            == Respawned(ExitBranch(s.(lines := Feed(s.lines, output), log := s.log + [AskOracle, Terminate] + killed),
                                    ReturnCode(shutdown)),
                         CommandForm(command).value)
  {
    JoinEmptyIff(Feed(s.lines, output));
    RunSingle(s, Tick(output, reply, shutdown), command, parse);
  }

  /** What `poll()` reports after an oracle-triggered termination. */
  function ReturnCode(shutdown: Shutdown): Option<int>
  {
    match shutdown
    case ExitedInGrace(code) => Some(code)
    case Killed(pollAfter) => pollAfter
  }

  /**
   * A health check consults the oracle exactly when the snapshot of the buffer
   * is non-empty; on an empty snapshot the pass only takes in the output.
   */
  lemma OracleAskedIffOutput(s: State, output: seq<string>, reply: HealthCheck.CallOutcome, shutdown: Shutdown,
                             parse: string -> HealthCheck.Parse)
    ensures var t := Step(s, Tick(output, reply, shutdown), parse);
            |t.log| > |s.log| && t.log[|s.log|] == AskOracle <==> Feed(s.lines, output) != [] && Feed(s.lines, output) != [""]
    ensures Feed(s.lines, output) == [] || Feed(s.lines, output) == [""] ==>
              Step(s, Tick(output, reply, shutdown), parse) == s.(lines := Feed(s.lines, output))
  {
    var lines := Feed(s.lines, output);
    JoinEmptyIff(lines);
    StepSpawnsNothing(s, Tick(output, reply, shutdown), parse);
    if Join("\n", lines) != "" {
      assert Step(s, Tick(output, reply, shutdown), parse).log[|s.log|] == AskOracle;
    } else {
      assert s.log + [] == s.log;
    }
  }

  /** The supervising object: its command, the shared buffer and the stop flag. */
  class ProcessMonitor {
    const command: seq<string>
    const buffer: Buffer
    var stopRequested: bool
    /** The actions taken so far, for the proofs: the source keeps no such record. */
    ghost var log: seq<Action>

    ghost predicate Valid()
      reads this, buffer
    {
      buffer.Valid()
    }

    /** The monitor's state, with control at `phase`. */
    ghost function Current(phase: Phase): State
      reads this, buffer
    {
      State(stopRequested, phase, buffer.lines, log)
    }

    constructor (command: seq<string>)
      ensures Valid() && fresh(buffer)
      ensures this.command == command && !stopRequested && buffer.lines == [] && log == []
    {
      this.command := command;
      buffer := new Buffer();
      stopRequested := false;
      log := [];
    }

    /** `_check_process`: take the snapshot under the lock, then decide on it. */
    method CheckProcess(reply: HealthCheck.CallOutcome, parse: string -> HealthCheck.Parse) returns (restart: bool)
      modifies this
      ensures restart == HealthCheck.CheckProcess(Join("\n", buffer.lines), reply, parse)
      ensures restart ==> buffer.lines != [] && buffer.lines != [""]
      ensures log == old(log) + OracleCalls(buffer.lines) && stopRequested == old(stopRequested)
    {
      var recentOutput := buffer.Snapshot();
      if recentOutput != "" {
        log := log + [AskOracle];
      }
      restart := HealthCheck.CheckProcess(recentOutput, reply, parse);
    }

    /**
     * One pass of the monitoring loop (coverseer.py:116-126) on `event`:
     * the reader takes in the event's output, then either `poll()` finds the
     * child gone, or the health check runs and, when it asks for a restart,
     * the child is terminated (and killed after the grace period). `ended`
     * says that the loop is left, with `returnCode` what `poll()` then gives.
     */
    method MonitorOnce(event: Event, parse: string -> HealthCheck.Parse) returns (ended: bool, returnCode: Option<int>)
      requires Valid() && !stopRequested
      modifies this, buffer
      ensures Valid() && !stopRequested
      ensures ended ==> ExitBranch(Current(Monitoring), returnCode) == Step(old(Current(Monitoring)), event, parse)
      ensures !ended ==> Current(Monitoring) == Step(old(Current(Monitoring)), event, parse)
    {
      ghost var pre := Current(Monitoring);
      buffer.ReadOutput(event.output);
      ghost var fed := pre.(lines := Feed(pre.lines, event.output));
      assert Current(Monitoring) == fed;
      ended, returnCode := false, None;
      match event {
        case Exited(_, code) =>
          ended, returnCode := true, Some(code);
        case Tick(_, reply, shutdown) =>
          var restart := CheckProcess(reply, parse);
          ghost var asked := pre.log + OracleCalls(fed.lines);
          assert Current(Monitoring) == fed.(log := asked);
          if restart {
            log := log + [Terminate];
            match shutdown {
              case ExitedInGrace(code) =>
                returnCode := Some(code);
                assert Current(Monitoring) == fed.(log := asked + [Terminate]);
              case Killed(pollAfter) =>
                log := log + [Kill];
                returnCode := pollAfter;
                assert Current(Monitoring) == fed.(log := asked + [Terminate, Kill]);
            }
            ended := true;
          }
      }
    }

    /**
     * `start` driven by `script`. It returns when supervision stops, when the
     * command is empty (`raised`: the IndexError of coverseer.py:100), or
     * when the script is used up while a child is live.
     */
    method Start(script: seq<Event>, parse: string -> HealthCheck.Parse) returns (raised: bool)
      requires Valid()
      modifies this, buffer
      ensures Valid()
      ensures raised <==> !old(stopRequested) && command == []
      ensures var r := Run(old(Current(AtLoopHead)), script, command, parse);
              stopRequested == r.stopRequested && buffer.lines == r.lines && log == r.log
    {
      raised := false;
      ghost var final := Run(Current(AtLoopHead), script, command, parse);
      var i := 0;
      while !stopRequested
        invariant Valid()
        invariant 0 <= i <= |script|
        invariant command == [] ==> stopRequested == old(stopRequested)
        invariant Run(Current(AtLoopHead), script[i..], command, parse) == final
        decreases |script| - i
      {
        var cmdToRun := CommandForm(command);
        if cmdToRun.None? {
          raised := true;
          return;
        }
        log := log + [Spawn(cmdToRun.value)];
        var ended := false;
        var returnCode: Option<int> := None;
        ghost var i0 := i;
        while !ended && i < |script|
          invariant Valid()
          invariant i0 <= i <= |script|
          invariant !stopRequested
          invariant ended ==> i > i0
          invariant !ended ==> Run(Current(Monitoring), script[i..], command, parse) == final
          invariant ended ==> Run(ExitBranch(Current(Monitoring), returnCode), script[i..], command, parse) == final
          decreases |script| - i, if ended then 0 else 1
        {
          RunStep(Current(Monitoring), script, i, command, parse);
          ended, returnCode := MonitorOnce(script[i], parse);
          i := i + 1;
        }
        if !ended {
          return;
        }
        if returnCode.Some? {
          if returnCode.value == 0 {
            stopRequested := true;
          } else {
            log := log + [Backoff];
          }
        }
      }
    }
  }
}
