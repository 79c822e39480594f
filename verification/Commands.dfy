/** Commands from the panel: what is done for each, in which order, and what the acknowledgement says. */
module Commands {
  import opened Model
  import opened Runtime
  import opened Diff
  import opened Apply
  import opened Reconciler
  import opened Runs
  import opened Resets
  import opened Text

  const CORE_RESTART_SYNC_RETRIES: nat := 6

  datatype Kind = RestartCore | RestartAgent | UpdateAgent | UpdateCore | Unknown(name: string)

  /** `target` is the requested version, already trimmed and prefixed; empty when the payload has none. */
  datatype Command = Command(id: string, kind: Kind, target: string)

  datatype Problem =
    | SyncFailed(cause: Error)
    | RestartFailed
    | ScheduleFailed
    | InstallFailed
    | TargetRequired
    | UnsupportedCommand(name: string)

  datatype Status = Succeeded | Failed

  datatype Install = Install(fromVersion: string, toVersion: string, updated: bool)

  datatype Mode =
    | RestartScheduled
    | RestartScheduleFailed
    | UpdatePending
    | InvalidPayload
    | UpdateFailed
    | AlreadyCurrent
    | InstalledScheduleFailed
    | InstalledScheduled
    | InstalledRestartFailed
    | InstalledSyncFailed
    | InstalledRestarted

  /** The entries an acknowledgement's result map may hold. */
  datatype Details = Details(executedAt: string, kind: Kind, mode: Option<Mode>, target: Option<string>,
                             install: Option<Install>)

  datatype Ack = Ack(status: Status, problem: Option<Problem>, result: Details)

  /** What the world answers while one command runs. */
  datatype Answers = Answers(
    startedAt: string,
    restartFails: bool,
    restartTook: bool,
    scheduleFails: bool,
    install: Option<Install>,
    panel: nat -> Option<PanelState>,
    cancelled: nat -> bool,
    ackFails: bool
  )

  datatype Action =
    | Restarted(ok: bool)
    | ResetSync(ok: bool)
    | Installed(ok: bool)
    | Announced(version: string)
    | Scheduled(ok: bool)
    | Heartbeat
    | Acked(id: string, ack: Ack)

  // ---------- the bounded retry after a restart of the core ----------

  datatype Resync = Resync(w: World, err: Option<Error>, log: seq<Action>)

  /** Attempts number `attempt` and later.  `between` is what other loops of the agent do to the same state
      while this one waits; the waiting itself may be cancelled. */
  function Resynchronize(env: Env, tags: InboundTags, w: World, panel: nat -> Option<PanelState>,
                         cancelled: nat -> bool, between: nat -> seq<Step>, attempt: nat): (r: Resync)
    requires 1 <= attempt <= CORE_RESTART_SYNC_RETRIES
    ensures r.w.rt.clock >= w.rt.clock
    decreases CORE_RESTART_SYNC_RETRIES - attempt, w
  {
    var (w1, err) := Sync(env, tags, After(env, tags, w, between(attempt)), true, panel(attempt), [], []);
    if err.None? then Resync(w1, None, [ResetSync(true)])
    else if attempt >= CORE_RESTART_SYNC_RETRIES then Resync(w1, err, [ResetSync(false)])
    else if cancelled(attempt) then Resync(w1, Some(Cancelled), [ResetSync(false)])
    else
      var later := Resynchronize(env, tags, w1, panel, cancelled, between, attempt + 1);
      later.(log := [ResetSync(false)] + later.log)
  }

  /** Some attempts that failed, then one that decided: it succeeded exactly when no error is reported. */
  ghost predicate StopsAtFirstSuccess(r: Resync, attempts: nat) {
    && 1 <= |r.log| <= attempts
    && (forall i | 0 <= i < |r.log| - 1 :: r.log[i] == ResetSync(false))
    && r.log[|r.log| - 1] == ResetSync(r.err.None?)
  }

  /** The state that attempt `i` finds, after the failures before it and what other loops did in between. */
  function Before(env: Env, tags: InboundTags, w: World, panel: nat -> Option<PanelState>, between: nat -> seq<Step>,
                  attempt: nat, i: nat): (w0: World)
    ensures w0.rt.clock >= w.rt.clock
    decreases i - attempt, w
  {
    var w0 := After(env, tags, w, between(attempt));
    if i <= attempt then w0
    else Before(env, tags, Sync(env, tags, w0, true, panel(attempt), [], []).0, panel, between, attempt + 1, i)
  }

  /** At most six attempts are made; they stop at the first success; nil is returned exactly when the last
      attempt made succeeded; and giving up earlier means the wait was cancelled. */
  lemma {:induction false} ResyncBounded(env: Env, tags: InboundTags, w: World, panel: nat -> Option<PanelState>,
                                         cancelled: nat -> bool, between: nat -> seq<Step>, attempt: nat)
    requires 1 <= attempt <= CORE_RESTART_SYNC_RETRIES
    ensures
      var r := Resynchronize(env, tags, w, panel, cancelled, between, attempt);
      var left := 6 - attempt + 1;
      && StopsAtFirstSuccess(r, left)
      && (r.err.Some? && |r.log| < left ==> cancelled(attempt + |r.log| - 1))
    decreases CORE_RESTART_SYNC_RETRIES - attempt
  {
    hide Sync, After;
    var (w1, err) := Sync(env, tags, After(env, tags, w, between(attempt)), true, panel(attempt), [], []);
    if err.Some? && attempt < CORE_RESTART_SYNC_RETRIES && !cancelled(attempt) {
      ResyncBounded(env, tags, w1, panel, cancelled, between, attempt + 1);
      OneMoreFailure(Resynchronize(env, tags, w1, panel, cancelled, between, attempt + 1), 6 - attempt);
    }
  }

  lemma OneMoreFailure(r: Resync, attempts: nat)
    requires StopsAtFirstSuccess(r, attempts)
    ensures StopsAtFirstSuccess(r.(log := [ResetSync(false)] + r.log), attempts + 1)
  {
  }

  /** What attempt `i` of a loop that starts with attempt number `attempt` in `w` would come to. */
  function AttemptError(env: Env, tags: InboundTags, w: World, panel: nat -> Option<PanelState>,
                        between: nat -> seq<Step>, attempt: nat, i: nat): Option<Error> {
    Sync(env, tags, Before(env, tags, w, panel, between, attempt, i), true, panel(i), [], []).1
  }

  lemma AttemptErrorStep(env: Env, tags: InboundTags, w: World, panel: nat -> Option<PanelState>,
                    between: nat -> seq<Step>, attempt: nat, i: nat)
    requires attempt < i
    ensures
      var w1 := Sync(env, tags, After(env, tags, w, between(attempt)), true, panel(attempt), [], []).0;
      AttemptError(env, tags, w, panel, between, attempt, i)
        == AttemptError(env, tags, w1, panel, between, attempt + 1, i)
  {
    hide Sync, After;
  }

  /** The loop goes on to attempt `k`, and stops there. */
  ghost predicate StopsAt(env: Env, tags: InboundTags, w: World, panel: nat -> Option<PanelState>,
                          cancelled: nat -> bool, between: nat -> seq<Step>, attempt: nat, k: nat) {
    && (forall i | attempt <= i < k :: AttemptError(env, tags, w, panel, between, attempt, i).Some? && !cancelled(i))
    && (AttemptError(env, tags, w, panel, between, attempt, k).None? || k == 6 || cancelled(k))
  }

  lemma StopsStep(env: Env, tags: InboundTags, w: World, w1: World, panel: nat -> Option<PanelState>,
                  cancelled: nat -> bool, between: nat -> seq<Step>, attempt: nat, next: nat, k: nat)
    requires next == attempt + 1 <= k
    requires w1 == Sync(env, tags, After(env, tags, w, between(attempt)), true, panel(attempt), [], []).0
    requires AttemptError(env, tags, w, panel, between, attempt, attempt).Some? && !cancelled(attempt)
    ensures StopsAt(env, tags, w, panel, cancelled, between, attempt, k)
       <==> StopsAt(env, tags, w1, panel, cancelled, between, next, k)
  {
    hide Sync, After, AttemptError;
    forall i: nat | next <= i <= k
      ensures AttemptError(env, tags, w, panel, between, attempt, i)
           == AttemptError(env, tags, w1, panel, between, next, i)
    {
      AttemptErrorStep(env, tags, w, panel, between, attempt, i);
    }
    if StopsAt(env, tags, w1, panel, cancelled, between, next, k) {
      forall i: nat | attempt <= i < k
        ensures AttemptError(env, tags, w, panel, between, attempt, i).Some? && !cancelled(i)
      {
        if i != attempt {
          assert AttemptError(env, tags, w1, panel, between, next, i).Some?;
        }
      }
    }
    if StopsAt(env, tags, w, panel, cancelled, between, attempt, k) {
      forall i: nat | next <= i < k
        ensures AttemptError(env, tags, w1, panel, between, next, i).Some? && !cancelled(i)
      {
        assert AttemptError(env, tags, w, panel, between, attempt, i).Some?;
      }
    }
  }

  lemma OneAttempt(env: Env, tags: InboundTags, w: World, panel: nat -> Option<PanelState>, cancelled: nat -> bool,
                   between: nat -> seq<Step>, attempt: nat)
    ensures StopsAt(env, tags, w, panel, cancelled, between, attempt, attempt)
       <==> AttemptError(env, tags, w, panel, between, attempt, attempt).None? || attempt == 6 || cancelled(attempt)
  {
    hide AttemptError;
  }

  lemma NeverGoesOn(env: Env, tags: InboundTags, w: World, panel: nat -> Option<PanelState>, cancelled: nat -> bool,
                    between: nat -> seq<Step>, attempt: nat, k: nat)
    requires attempt < k
    requires AttemptError(env, tags, w, panel, between, attempt, attempt).None? || cancelled(attempt)
    ensures !StopsAt(env, tags, w, panel, cancelled, between, attempt, k)
  {
    hide AttemptError;
  }

  /** When exactly the loop stops, and with what: at its first success, after the sixth failure with that failure, or
      at a cancelled wait between two attempts. */
  lemma {:induction false} ResyncStopsIff(env: Env, tags: InboundTags, w: World, panel: nat -> Option<PanelState>,
                                          cancelled: nat -> bool, between: nat -> seq<Step>, attempt: nat, k: nat)
    requires 1 <= attempt <= k <= 6
    ensures
      var r := Resynchronize(env, tags, w, panel, cancelled, between, attempt);
      && (|r.log| == k - attempt + 1 <==> StopsAt(env, tags, w, panel, cancelled, between, attempt, k))
      && (|r.log| == k - attempt + 1 ==>
            var err := AttemptError(env, tags, w, panel, between, attempt, k);
            r.err == if err.None? || k == 6 then err else Some(Cancelled))
    decreases 6 - attempt
  {
    hide Sync, After, Before, AttemptError, StopsAt;
    AttemptErrorIs(env, tags, w, panel, between, attempt);
    OneAttempt(env, tags, w, panel, cancelled, between, attempt);
    var (w1, err) := Sync(env, tags, After(env, tags, w, between(attempt)), true, panel(attempt), [], []);
    if err.Some? && attempt < 6 && !cancelled(attempt) {
      ResyncBounded(env, tags, w1, panel, cancelled, between, attempt + 1);
      if attempt < k {
        StopsStep(env, tags, w, w1, panel, cancelled, between, attempt, attempt + 1, k);
        AttemptErrorStep(env, tags, w, panel, between, attempt, k);
        ResyncStopsIff(env, tags, w1, panel, cancelled, between, attempt + 1, k);
      }
    } else if attempt < k {
      NeverGoesOn(env, tags, w, panel, cancelled, between, attempt, k);
    }
  }

  lemma AttemptErrorIs(env: Env, tags: InboundTags, w: World, panel: nat -> Option<PanelState>,
                       between: nat -> seq<Step>, attempt: nat)
    ensures AttemptError(env, tags, w, panel, between, attempt, attempt)
         == Sync(env, tags, After(env, tags, w, between(attempt)), true, panel(attempt), [], []).1
  {
    hide Sync, After;
  }

  /** The outcome is that of the last attempt made, from the state it found; it reports success if and only if
      that attempt succeeded. */
  lemma {:induction false} ResyncEndsInReset(env: Env, tags: InboundTags, w: World, panel: nat -> Option<PanelState>,
                                             cancelled: nat -> bool, between: nat -> seq<Step>, attempt: nat)
    requires 1 <= attempt <= CORE_RESTART_SYNC_RETRIES
    ensures
      var r := Resynchronize(env, tags, w, panel, cancelled, between, attempt);
      var i := attempt + |r.log| - 1;
      && attempt <= i <= CORE_RESTART_SYNC_RETRIES
      && var (w', err) := Sync(env, tags, Before(env, tags, w, panel, between, attempt, i), true, panel(i), [], []);
         w' == r.w && (err.None? <==> r.err.None?)
    decreases CORE_RESTART_SYNC_RETRIES - attempt
  {
    hide Sync, After;
    var w0 := After(env, tags, w, between(attempt));
    var (w1, err) := Sync(env, tags, w0, true, panel(attempt), [], []);
    if err.Some? && attempt < CORE_RESTART_SYNC_RETRIES && !cancelled(attempt) {
      ResyncEndsInReset(env, tags, w1, panel, cancelled, between, attempt + 1);
    }
  }

  /** Left alone, a retry loop that gives up leaves the agent's memory as it was. */
  lemma {:induction false} GivingUpKeepsMemory(env: Env, tags: InboundTags, w: World, panel: nat -> Option<PanelState>,
                                               cancelled: nat -> bool, between: nat -> seq<Step>, attempt: nat)
    requires 1 <= attempt <= CORE_RESTART_SYNC_RETRIES
    requires forall i :: between(i) == []
    requires Resynchronize(env, tags, w, panel, cancelled, between, attempt).err.Some?
    ensures var w' := Resynchronize(env, tags, w, panel, cancelled, between, attempt).w;
      w'.version == w.version && w'.clients == w.clients && w'.routes == w.routes
    decreases CORE_RESTART_SYNC_RETRIES - attempt
  {
    assert between(attempt) == [];
    var (w1, err) := Sync(env, tags, w, true, panel(attempt), [], []);
    if attempt < CORE_RESTART_SYNC_RETRIES && !cancelled(attempt) {
      GivingUpKeepsMemory(env, tags, w1, panel, cancelled, between, attempt + 1);
    }
  }

  // ---------- commands ----------

  /** A command's run: the state it leaves, the log of its actions, and the acknowledgement that is attempted at
      whichever exit it takes. */
  datatype CommandRun = CommandRun(w: World, log: seq<Action>, ack: Ack)

  function RestartWorld(env: Env, w: World, answers: Answers): World {
    if !answers.restartFails || answers.restartTook then w.(rt := Boot(env, w.rt)) else w
  }

  function Fail(ack: Ack, problem: Problem): Ack {
    ack.(status := Status.Failed, problem := Some(problem))
  }

  function WithMode(ack: Ack, mode: Mode): Ack {
    ack.(result := ack.result.(mode := Some(mode)))
  }

  function WithTarget(ack: Ack, target: string): Ack {
    ack.(result := ack.result.(target := Some(target)))
  }

  function WithInstall(ack: Ack, install: Install): Ack {
    ack.(result := ack.result.(install := Some(install)))
  }

  function FreshAck(cmd: Command, answers: Answers): Ack {
    Ack(Succeeded, None, Details(answers.startedAt, cmd.kind, None, None, None))
  }

  /** The commands that end in a plain acknowledgement.  `w1` is the state right after the restart, `r` what the
      resets that follow come to. */
  function AgentCommand(w: World, w1: World, r: Resync, kind: Kind, answers: Answers)
    : (World, seq<Action>, Option<Problem>)
    requires kind.RestartCore? || kind.Unknown?
  {
    if kind.Unknown? then (w, [], Some(UnsupportedCommand(kind.name)))
    else if answers.restartFails then (w1, [Restarted(false)], Some(RestartFailed))
    else (r.w, [Restarted(true)] + r.log, if r.err.Some? then Some(SyncFailed(r.err.value)) else None)
  }

  function ExecuteAgentCommand(w: World, w1: World, r: Resync, cmd: Command, answers: Answers): CommandRun
    requires cmd.kind.RestartCore? || cmd.kind.Unknown?
  {
    var (w', log, problem) := AgentCommand(w, w1, r, cmd.kind, answers);
    var ack := if problem.Some? then Fail(FreshAck(cmd, answers), problem.value) else FreshAck(cmd, answers);
    CommandRun(w', log + [Acked(cmd.id, ack)], ack)
  }

  function ExecuteRestartAgent(w: World, cmd: Command, answers: Answers): CommandRun {
    var ack := WithMode(FreshAck(cmd, answers), RestartScheduled);
    if answers.scheduleFails then
      var failed := WithMode(Fail(ack, ScheduleFailed), RestartScheduleFailed);
      CommandRun(w, [Scheduled(false), Acked(cmd.id, failed)], failed)
    else
      CommandRun(w, [Scheduled(true), Acked(cmd.id, ack)], ack)
  }

  function ExecuteUpdateAgent(w: World, cmd: Command, answers: Answers): CommandRun {
    var ack := WithMode(FreshAck(cmd, answers), UpdatePending);
    if cmd.target == "" then
      var invalid := WithMode(Fail(ack, TargetRequired), InvalidPayload);
      CommandRun(w, [Acked(cmd.id, invalid)], invalid)
    else
      var ack1 := WithTarget(ack, cmd.target);
      match answers.install
      case None =>
        var failed := WithMode(Fail(ack1, InstallFailed), UpdateFailed);
        CommandRun(w, [Installed(false), Acked(cmd.id, failed)], failed)
      case Some(install) =>
        var ack2 := WithInstall(ack1, install);
        if !install.updated then
          var current := WithMode(ack2, AlreadyCurrent);
          CommandRun(w, [Installed(true), Acked(cmd.id, current)], current)
        else if answers.scheduleFails then
          var stuck := WithMode(Fail(ack2, ScheduleFailed), InstalledScheduleFailed);
          CommandRun(w, [Installed(true), Scheduled(false), Acked(cmd.id, stuck)], stuck)
        else
          var scheduled := WithMode(ack2, InstalledScheduled);
          CommandRun(w, [Installed(true), Scheduled(true), Acked(cmd.id, scheduled)], scheduled)
  }

  /** The version announced to the panel: the installed one, or the requested one when that is blank. */
  function CoreVersion(install: Install, target: string): string {
    if TrimSpace(install.toVersion) != "" then install.toVersion else target
  }

  function ExecuteUpdateCore(w: World, w1: World, r: Resync, cmd: Command, answers: Answers): CommandRun {
    var ack := WithMode(FreshAck(cmd, answers), UpdatePending);
    if cmd.target == "" then
      var invalid := WithMode(Fail(ack, TargetRequired), InvalidPayload);
      CommandRun(w, [Acked(cmd.id, invalid)], invalid)
    else
      var ack1 := WithTarget(ack, cmd.target);
      match answers.install
      case None =>
        var failed := WithMode(Fail(ack1, InstallFailed), UpdateFailed);
        CommandRun(w, [Installed(false), Acked(cmd.id, failed)], failed)
      case Some(install) =>
        var ack2 := WithInstall(ack1, install);
        var announced := [Installed(true), Announced(CoreVersion(install, cmd.target))];
        if !install.updated then
          var current := WithMode(ack2, AlreadyCurrent);
          CommandRun(w, announced + [Heartbeat, Acked(cmd.id, current)], current)
        else
          var rest := FinishUpdateCore(w1, r, cmd, answers, ack2);
          rest.(log := announced + rest.log)
  }

  /** From the restart of the updated core on. */
  function FinishUpdateCore(w1: World, r: Resync, cmd: Command, answers: Answers, ack: Ack): CommandRun {
    if answers.restartFails then
      var down := WithMode(Fail(ack, RestartFailed), InstalledRestartFailed);
      CommandRun(w1, [Restarted(false), Acked(cmd.id, down)], down)
    else if r.err.Some? then
      var unsynced := WithMode(Fail(ack, SyncFailed(r.err.value)), InstalledSyncFailed);
      CommandRun(r.w, [Restarted(true)] + r.log + [Acked(cmd.id, unsynced)], unsynced)
    else
      var restarted := WithMode(ack, InstalledRestarted);
      CommandRun(r.w, [Restarted(true)] + r.log + [Heartbeat, Acked(cmd.id, restarted)], restarted)
  }

  /** A core update runs in the background context, so its waits between attempts cannot be cancelled. */
  function Cancellation(kind: Kind, answers: Answers): nat -> bool {
    if kind.RestartCore? then answers.cancelled else Never
  }

  function ResyncAfterRestart(env: Env, tags: InboundTags, w: World, kind: Kind, answers: Answers,
                              between: nat -> seq<Step>): Resync {
    Resynchronize(env, tags, RestartWorld(env, w, answers), answers.panel, Cancellation(kind, answers), between, 1)
  }

  function Never(attempt: nat): bool {
    false
  }

  /** What follows the fetching of a command.  No acknowledgement leaves the placeholder mode standing, and it
      reports a problem exactly when it reports failure. */
  function Actions(w: World, w1: World, r: Resync, cmd: Command, answers: Answers): (run: CommandRun)
    ensures run.ack.result.mode != Some(UpdatePending)
    ensures run.ack.status == Status.Failed <==> run.ack.problem.Some?
    ensures run.ack.result.kind == cmd.kind
  {
    match cmd.kind
    case RestartAgent => ExecuteRestartAgent(w, cmd, answers)
    case UpdateAgent => ExecuteUpdateAgent(w, cmd, answers)
    case UpdateCore => ExecuteUpdateCore(w, w1, r, cmd, answers)
    case RestartCore => ExecuteAgentCommand(w, w1, r, cmd, answers)
    case Unknown(_) => ExecuteAgentCommand(w, w1, r, cmd, answers)
  }

  function Execute(env: Env, tags: InboundTags, w: World, cmd: Command, answers: Answers,
                   between: nat -> seq<Step>): CommandRun {
    var w1, r := RestartWorld(env, w, answers), ResyncAfterRestart(env, tags, w, cmd.kind, answers, between);
    Actions(w, w1, r, cmd, answers)
  }

  // ---------- what an acknowledgement implies ----------

  /** A log in which the core restarted, then a reset synchronisation succeeded, and the acknowledgement
      came after both. */
  ghost predicate RestartedThenResynced(log: seq<Action>) {
    exists i, j | 0 <= i < j < |log| - 1 :: log[i] == Restarted(true) && log[j] == ResetSync(true)
  }

  predicate ClaimsRestoredCore(kind: Kind, ack: Ack) {
    && ack.status == Succeeded
    && (kind.RestartCore? || (kind.UpdateCore? && ack.result.install.Some? && ack.result.install.value.updated))
  }

  lemma ResyncLog(r: Resync)
    requires StopsAtFirstSuccess(r, CORE_RESTART_SYNC_RETRIES)
    ensures forall a | a in r.log :: a.ResetSync?
    ensures ResetSync(true) in r.log <==> r.err.None?
  {
    forall a | a in r.log ensures a.ResetSync? {
      var i :| 0 <= i < |r.log| && r.log[i] == a;
    }
    assert r.log[|r.log| - 1] in r.log;
  }

  lemma ResyncedLast(log: seq<Action>, prefix: seq<Action>, resets: seq<Action>, suffix: seq<Action>)
    requires log == prefix + [Restarted(true)] + resets + suffix
    requires resets != [] && suffix != []
    requires resets[|resets| - 1] == ResetSync(true)
    ensures RestartedThenResynced(log)
  {
    assert log[|prefix|] == Restarted(true);
    assert log[|prefix| + |resets|] == ResetSync(true);
  }

  lemma ClaimIff(w: World, w1: World, r: Resync, cmd: Command, answers: Answers)
    requires StopsAtFirstSuccess(r, CORE_RESTART_SYNC_RETRIES)
    ensures var run := Actions(w, w1, r, cmd, answers);
      ClaimsRestoredCore(cmd.kind, run.ack) <==> RestartedThenResynced(run.log)
  {
    var run := Actions(w, w1, r, cmd, answers);
    if ClaimsRestoredCore(cmd.kind, run.ack) {
      var acked := [Acked(cmd.id, run.ack)];
      if cmd.kind.RestartCore? {
        ResyncedLast(run.log, [], r.log, acked);
      } else {
        var announced := [Installed(true), Announced(CoreVersion(answers.install.value, cmd.target))];
        ResyncedLast(run.log, announced, r.log, [Heartbeat] + acked);
      }
    }
  }

  /** A core restart, or an installed core update, is acknowledged as succeeded exactly when the restart
      was reported to work and a later reset synchronisation succeeded. */
  lemma RestoredCoreIff(env: Env, tags: InboundTags, w: World, cmd: Command, answers: Answers,
                        between: nat -> seq<Step>)
    ensures var run := Execute(env, tags, w, cmd, answers, between);
      ClaimsRestoredCore(cmd.kind, run.ack) <==> RestartedThenResynced(run.log)
  {
    var w1 := RestartWorld(env, w, answers);
    ResyncBounded(env, tags, w1, answers.panel, Cancellation(cmd.kind, answers), between, 1);
    ClaimIff(w, w1, ResyncAfterRestart(env, tags, w, cmd.kind, answers, between), cmd, answers);
  }

  /** The number of resets attempted for a command, and the state the last of them found. */
  function Attempts(env: Env, tags: InboundTags, w: World, cmd: Command, answers: Answers,
                    between: nat -> seq<Step>): nat {
    |ResyncAfterRestart(env, tags, w, cmd.kind, answers, between).log|
  }

  function Found(env: Env, tags: InboundTags, w: World, cmd: Command, answers: Answers,
                 between: nat -> seq<Step>): World {
    Before(env, tags, RestartWorld(env, w, answers), answers.panel, between, 1,
           Attempts(env, tags, w, cmd, answers, between))
  }

  lemma ClaimEndsInReset(env: Env, tags: InboundTags, w: World, cmd: Command, answers: Answers,
                         between: nat -> seq<Step>)
    requires ClaimsRestoredCore(cmd.kind, Execute(env, tags, w, cmd, answers, between).ack)
    ensures
      var i, w0 := Attempts(env, tags, w, cmd, answers, between), Found(env, tags, w, cmd, answers, between);
      && 1 <= i <= CORE_RESTART_SYNC_RETRIES
      && Sync(env, tags, w0, true, answers.panel(i), [], []) == (Execute(env, tags, w, cmd, answers, between).w, None)
  {
    var w1, r := RestartWorld(env, w, answers), ResyncAfterRestart(env, tags, w, cmd.kind, answers, between);
    ClaimKeepsResync(w, w1, r, cmd, answers);
    ResyncEndsInReset(env, tags, w1, answers.panel, Cancellation(cmd.kind, answers), between, 1);
    hide Sync, Before, Actions, Resynchronize;
  }

  lemma ClaimKeepsResync(w: World, w1: World, r: Resync, cmd: Command, answers: Answers)
    requires ClaimsRestoredCore(cmd.kind, Actions(w, w1, r, cmd, answers).ack)
    ensures r.err.None? && Actions(w, w1, r, cmd, answers).w == r.w
  {
  }

  /** And then the agent remembers one response, and the core serves it if it stayed up during that last attempt,
      indeed exactly if it did so from the first addition on. */
  lemma RestoredCoreServes(env: Env, tags: InboundTags, w: World, cmd: Command, answers: Answers,
                           between: nat -> seq<Step>)
    requires ClaimsRestoredCore(cmd.kind, Execute(env, tags, w, cmd, answers, between).ack)
    ensures
      var i, w0 := Attempts(env, tags, w, cmd, answers, between), Found(env, tags, w, cmd, answers, between);
      var w' := Execute(env, tags, w, cmd, answers, between).w;
      && answers.panel(i).Some?
      && var ds := answers.panel(i).value;
         && Remembers(w', ds)
         && (DistinctEmails(ds.clients) && Quiet(env, w0.rt.clock, w'.rt.clock) ==> Serves(tags, w'.rt, ds))
         && (DistinctEmails(ds.clients) && FirstIsFresh(env, tags, ds) ==>
               (Serves(tags, w'.rt, ds) <==> Quiet(env, KeptFrom(ds, w0.rt.clock), w'.rt.clock)))
  {
    hide Sync, Before, Execute, Serves, Resynchronize, FirstIsFresh, KeptFrom;
    var i, w0 := Attempts(env, tags, w, cmd, answers, between), Found(env, tags, w, cmd, answers, between);
    ClaimEndsInReset(env, tags, w, cmd, answers, between);
    hide Found, Attempts;
    ResetRemembers(env, tags, w0, answers.panel(i));
    var ds, w' := answers.panel(i).value, Execute(env, tags, w, cmd, answers, between).w;
    if DistinctEmails(ds.clients) && Quiet(env, w0.rt.clock, w'.rt.clock) {
      ResetServes(env, tags, w0, ds);
    }
    if DistinctEmails(ds.clients) && FirstIsFresh(env, tags, ds) {
      ResetServesIff(env, tags, w0, ds);
    }
  }

  // ---------- the full tie to the reconciler ----------

  ghost predicate SameResponse(panel: nat -> Option<PanelState>, ds: PanelState) {
    forall i :: panel(i).None? || panel(i) == Some(ds)
  }

  ghost predicate OthersAbout(between: nat -> seq<Step>, ds: PanelState) {
    forall i, step | step in between(i) :: About(step, ds)
  }

  lemma {:induction false} BeforeStaysInside(env: Env, tags: InboundTags, w: World, panel: nat -> Option<PanelState>,
                                             between: nat -> seq<Step>, attempt: nat, i: nat, ds: PanelState)
    requires SameResponse(panel, ds) && OthersAbout(between, ds)
    requires BootsInside(env, tags, ds) && Inside(tags, w.rt, ds)
    ensures Inside(tags, Before(env, tags, w, panel, between, attempt, i).rt, ds)
    decreases i - attempt
  {
    var w0 := After(env, tags, w, between(attempt));
    hide Sync, After, Inside, BootsInside;
    AfterStaysInside(env, tags, w, between(attempt), ds);
    if i > attempt {
      SyncStaysInside(env, tags, w0, true, panel(attempt), [], [], ds);
      BeforeStaysInside(env, tags, Sync(env, tags, w0, true, panel(attempt), [], []).0, panel, between, attempt + 1,
                        i, ds);
    }
  }

  /** When every response received is the same and the core boots with nothing else, a command that claims a
      restored core leaves agent and core in full agreement, with exactly the panel's rule list, if and only if no
      restart lands after the first addition of the last attempt: however many resets failed before it, and
      whatever synchronisations and restarts came in between. */
  lemma RestoredCoreAgrees(env: Env, tags: InboundTags, w: World, cmd: Command, answers: Answers,
                           between: nat -> seq<Step>, ds: PanelState)
    requires ClaimsRestoredCore(cmd.kind, Execute(env, tags, w, cmd, answers, between).ack)
    requires SameResponse(answers.panel, ds) && OthersAbout(between, ds)
    requires BootsInside(env, tags, ds) && FirstIsFresh(env, tags, ds) && DistinctEmails(ds.clients)
    ensures
      var w0, w' := Found(env, tags, w, cmd, answers, between), Execute(env, tags, w, cmd, answers, between).w;
      && Remembers(w', ds)
      && (Agrees(tags, w', ds) <==> Quiet(env, KeptFrom(ds, w0.rt.clock), w'.rt.clock))
  {
    var i, w0 := Attempts(env, tags, w, cmd, answers, between), Found(env, tags, w, cmd, answers, between);
    var w1 := RestartWorld(env, w, answers);
    RestartSucceeded(w, w1, ResyncAfterRestart(env, tags, w, cmd.kind, answers, between), cmd, answers);
    assert Inside(tags, w1.rt, ds);
    hide Sync, Before, Execute, Resynchronize, Inside, BootsInside, FirstIsFresh, Agrees, KeptFrom;
    ClaimEndsInReset(env, tags, w, cmd, answers, between);
    BeforeStaysInside(env, tags, w1, answers.panel, between, 1, i, ds);
    ResetRemembers(env, tags, w0, answers.panel(i));
    assert answers.panel(i) == Some(ds);
    ResetFromInside(env, tags, w0, ds);
  }

  lemma RestartSucceeded(w: World, w1: World, r: Resync, cmd: Command, answers: Answers)
    requires ClaimsRestoredCore(cmd.kind, Actions(w, w1, r, cmd, answers).ack)
    ensures !answers.restartFails
  {
  }

  // ---------- runs of the command loop ----------

  /** One turn of the loop: nothing fetched, or a command with what the world answers; and in between
      whatever the other loops do to the same state. */
  datatype Turn =
    | Idle
    | Fetched(cmd: Command, answers: Answers, between: nat -> seq<Step>)
    | Elsewhere(steps: seq<Step>)

  function LogOf(env: Env, tags: InboundTags, w: World, turns: seq<Turn>): seq<Action>
    decreases turns
  {
    if turns == [] then []
    else
      match turns[0]
      case Idle => LogOf(env, tags, w, turns[1..])
      case Elsewhere(steps) => LogOf(env, tags, After(env, tags, w, steps), turns[1..])
      case Fetched(cmd, answers, between) =>
        var run := Execute(env, tags, w, cmd, answers, between);
        run.log + LogOf(env, tags, run.w, turns[1..])
  }

  function AckedIds(log: seq<Action>): seq<string> {
    if log == [] then []
    else if log[0].Acked? then [log[0].id] + AckedIds(log[1..])
    else AckedIds(log[1..])
  }

  function FetchedIds(turns: seq<Turn>): seq<string> {
    if turns == [] then []
    else if turns[0].Fetched? then [turns[0].cmd.id] + FetchedIds(turns[1..])
    else FetchedIds(turns[1..])
  }

  lemma {:induction false} AckedIdsConcat(xs: seq<Action>, ys: seq<Action>)
    ensures AckedIds(xs + ys) == AckedIds(xs) + AckedIds(ys)
  {
    if xs == [] {
      assert xs + ys == ys;
    } else {
      AckedIdsConcat(xs[1..], ys);
      assert (xs + ys)[1..] == xs[1..] + ys;
    }
  }

  lemma {:induction false} NoAcks(log: seq<Action>)
    requires forall a | a in log :: !a.Acked?
    ensures AckedIds(log) == []
  {
    if log != [] {
      assert log[0] in log;
      NoAcks(log[1..]);
    }
  }

  /** Whichever exit a command takes, it attempts its acknowledgement there, and did not before. */
  ghost predicate AckedLast(log: seq<Action>, id: string, ack: Ack) {
    && log != [] && log[|log| - 1] == Acked(id, ack)
    && forall i | 0 <= i < |log| - 1 :: !log[i].Acked?
  }

  lemma UpdateCoreEndsInAck(w: World, w1: World, r: Resync, cmd: Command, answers: Answers)
    requires forall i | 0 <= i < |r.log| :: r.log[i].ResetSync?
    ensures
      var run := ExecuteUpdateCore(w, w1, r, cmd, answers);
      AckedLast(run.log, cmd.id, run.ack)
  {
  }

  lemma ActionsEndInAck(w: World, w1: World, r: Resync, cmd: Command, answers: Answers)
    requires StopsAtFirstSuccess(r, CORE_RESTART_SYNC_RETRIES)
    ensures AckedLast(Actions(w, w1, r, cmd, answers).log, cmd.id, Actions(w, w1, r, cmd, answers).ack)
  {
    ResyncLog(r);
    assert forall i | 0 <= i < |r.log| :: r.log[i] in r.log;
    UpdateCoreEndsInAck(w, w1, r, cmd, answers);
    hide ExecuteUpdateCore, StopsAtFirstSuccess;
  }

  /** One acknowledgement is attempted for a command, after everything else it does. */
  lemma OneAckPerCommand(env: Env, tags: InboundTags, w: World, cmd: Command, answers: Answers,
                         between: nat -> seq<Step>)
    ensures var run := Execute(env, tags, w, cmd, answers, between);
      AckedIds(run.log) == [cmd.id] && AckedLast(run.log, cmd.id, run.ack)
  {
    var w1, r := RestartWorld(env, w, answers), ResyncAfterRestart(env, tags, w, cmd.kind, answers, between);
    var run := Actions(w, w1, r, cmd, answers);
    ResyncBounded(env, tags, w1, answers.panel, Cancellation(cmd.kind, answers), between, 1);
    ActionsEndInAck(w, w1, r, cmd, answers);
    hide *;
    ExecuteIs(env, tags, w, cmd, answers, between);
    AckedLastOnce(run.log, cmd.id, run.ack);
  }

  lemma ExecuteIs(env: Env, tags: InboundTags, w: World, cmd: Command, answers: Answers, between: nat -> seq<Step>)
    ensures Execute(env, tags, w, cmd, answers, between)
         == Actions(w, RestartWorld(env, w, answers), ResyncAfterRestart(env, tags, w, cmd.kind, answers, between),
                    cmd, answers)
  {
    hide Actions, ResyncAfterRestart, RestartWorld;
  }

  lemma AckedLastOnce(log: seq<Action>, id: string, ack: Ack)
    requires AckedLast(log, id, ack)
    ensures AckedIds(log) == [id]
  {
    var actions := log[..|log| - 1];
    assert log == actions + [Acked(id, ack)];
    NoAcks(actions);
    AckedIdsConcat(actions, [Acked(id, ack)]);
  }

  /** On every run of the loop, each fetched command is acknowledged once, in the order of fetching. */
  lemma {:induction false} EveryCommandAckedOnce(env: Env, tags: InboundTags, w: World, turns: seq<Turn>)
    ensures AckedIds(LogOf(env, tags, w, turns)) == FetchedIds(turns)
    decreases turns
  {
    if turns != [] {
      match turns[0]
      case Idle => EveryCommandAckedOnce(env, tags, w, turns[1..]);
      case Elsewhere(steps) => EveryCommandAckedOnce(env, tags, After(env, tags, w, steps), turns[1..]);
      case Fetched(cmd, answers, between) =>
        var run := Execute(env, tags, w, cmd, answers, between);
        EveryCommandAckedOnce(env, tags, run.w, turns[1..]);
        OneAckPerCommand(env, tags, w, cmd, answers, between);
        AckedIdsConcat(run.log, LogOf(env, tags, run.w, turns[1..]));
    }
  }
}
