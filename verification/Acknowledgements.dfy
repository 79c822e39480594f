/** What an acknowledgement tells of a command: the log of a command stage by stage, and status, problem, mode and
    details of its acknowledgement as far as that log determines them. */
module Acknowledgements {
  import opened Model
  import opened Runtime
  import opened Diff
  import opened Apply
  import opened Reconciler
  import opened Runs
  import opened Commands
  import opened Text

  // ---------- which stages are due ----------

  predicate InstallDue(cmd: Command) {
    cmd.kind in {UpdateAgent, UpdateCore} && cmd.target != ""
  }

  predicate Changed(cmd: Command, answers: Answers) {
    InstallDue(cmd) && answers.install.Some? && answers.install.value.updated
  }

  predicate RestartDue(cmd: Command, answers: Answers) {
    cmd.kind == RestartCore || (cmd.kind == UpdateCore && Changed(cmd, answers))
  }

  predicate ScheduleDue(cmd: Command, answers: Answers) {
    cmd.kind == RestartAgent || (cmd.kind == UpdateAgent && Changed(cmd, answers))
  }

  predicate AnnounceDue(cmd: Command, answers: Answers) {
    cmd.kind == UpdateCore && cmd.target != "" && answers.install.Some?
  }

  /** The core's version is reported again once the core that runs is the one announced. */
  predicate HeartbeatDue(cmd: Command, answers: Answers, resynced: bool) {
    AnnounceDue(cmd, answers) && (answers.install.value.updated ==> !answers.restartFails && resynced)
  }

  /** The version announced is the installed one unless that is blank. */
  ghost function Version(cmd: Command, answers: Answers): string {
    if answers.install.Some? && exists c :: c in answers.install.value.toVersion && !IsSpace(c)
    then answers.install.value.toVersion else cmd.target
  }

  function When(due: bool, action: Action): seq<Action> {
    if due then [action] else []
  }

  /** All stages in order; each is logged exactly when it is due, with what became of it. */
  ghost function StageLog(cmd: Command, answers: Answers, r: Resync, ack: Ack): seq<Action> {
    When(InstallDue(cmd), Installed(answers.install.Some?))
    + When(AnnounceDue(cmd, answers), Announced(Version(cmd, answers)))
    + When(RestartDue(cmd, answers), Restarted(!answers.restartFails))
    + (if RestartDue(cmd, answers) && !answers.restartFails then r.log else [])
    + When(ScheduleDue(cmd, answers), Scheduled(!answers.scheduleFails))
    + When(HeartbeatDue(cmd, answers, r.err.None?), Heartbeat)
    + [Acked(cmd.id, ack)]
  }

  lemma CoreVersionIs(cmd: Command, answers: Answers)
    requires answers.install.Some?
    ensures CoreVersion(answers.install.value, cmd.target) == Version(cmd, answers)
  {
    TrimEmptyIff(answers.install.value.toVersion);
  }

  lemma StagesOf(w: World, w1: World, r: Resync, cmd: Command, answers: Answers)
    ensures var run := Actions(w, w1, r, cmd, answers); run.log == StageLog(cmd, answers, r, run.ack)
  {
    if answers.install.Some? {
      CoreVersionIs(cmd, answers);
    }
    hide CoreVersion, Version, FreshAck, Fail, WithMode, WithTarget, WithInstall;
    match cmd.kind
    case RestartCore => StagesOfRestart(w, w1, r, cmd, answers);
    case UpdateCore => StagesOfUpdate(w, w1, r, cmd, answers);
    case _ =>
  }

  lemma StagesOfRestart(w: World, w1: World, r: Resync, cmd: Command, answers: Answers)
    requires cmd.kind.RestartCore?
    ensures var run := ExecuteAgentCommand(w, w1, r, cmd, answers); run.log == StageLog(cmd, answers, r, run.ack)
  {
    hide Version, FreshAck, Fail;
  }

  lemma StagesOfUpdate(w: World, w1: World, r: Resync, cmd: Command, answers: Answers)
    requires cmd.kind.UpdateCore?
    requires answers.install.Some? ==> CoreVersion(answers.install.value, cmd.target) == Version(cmd, answers)
    ensures var run := ExecuteUpdateCore(w, w1, r, cmd, answers); run.log == StageLog(cmd, answers, r, run.ack)
  {
    hide Version, CoreVersion, FreshAck, Fail, WithMode, WithTarget, WithInstall;
  }

  /** Every command goes through the same stages: installation, announcement, restart, resets, scheduling, heartbeat,
      acknowledgement; each is in the log exactly when it is due, once, with its outcome. */
  lemma LogLaw(env: Env, tags: InboundTags, w: World, cmd: Command, answers: Answers, between: nat -> seq<Step>)
    ensures
      var run := Execute(env, tags, w, cmd, answers, between);
      run.log == StageLog(cmd, answers, ResyncAfterRestart(env, tags, w, cmd.kind, answers, between), run.ack)
  {
    hide *;
    ExecuteIs(env, tags, w, cmd, answers, between);
    var w1, r := RestartWorld(env, w, answers), ResyncAfterRestart(env, tags, w, cmd.kind, answers, between);
    StagesOf(w, w1, r, cmd, answers);
  }

  // ---------- the acknowledgement, read off the log ----------

  /** What went wrong, if anything: the first stage that the log shows to have failed. */
  function ProblemIn(cmd: Command, log: seq<Action>, cause: Option<Error>): Option<Problem> {
    if cmd.kind.Unknown? then Some(UnsupportedCommand(cmd.kind.name))
    else if cmd.kind in {UpdateAgent, UpdateCore} && cmd.target == "" then Some(TargetRequired)
    else if Installed(false) in log then Some(InstallFailed)
    else if Scheduled(false) in log then Some(ScheduleFailed)
    else if Restarted(false) in log then Some(RestartFailed)
    else if ResetSync(false) in log && ResetSync(true) !in log && cause.Some? then Some(SyncFailed(cause.value))
    else None
  }

  function ModeIn(kind: Kind, log: seq<Action>): Option<Mode> {
    match kind
    case RestartCore => None
    case Unknown(_) => None
    case RestartAgent => Some(if Scheduled(true) in log then RestartScheduled else RestartScheduleFailed)
    case UpdateAgent =>
      Some(if Installed(false) in log then UpdateFailed
           else if Installed(true) !in log then InvalidPayload
           else if Scheduled(true) in log then InstalledScheduled
           else if Scheduled(false) in log then InstalledScheduleFailed else AlreadyCurrent)
    case UpdateCore =>
      Some(if Installed(false) in log then UpdateFailed
           else if Installed(true) !in log then InvalidPayload
           else if Restarted(false) in log then InstalledRestartFailed
           else if Restarted(true) !in log then AlreadyCurrent
           else if ResetSync(true) in log then InstalledRestarted else InstalledSyncFailed)
  }

  function AckFor(cmd: Command, answers: Answers, log: seq<Action>, cause: Option<Error>): Ack {
    var problem := ProblemIn(cmd, log, cause);
    Ack(if problem.None? then Succeeded else Status.Failed, problem,
        Details(answers.startedAt, cmd.kind, ModeIn(cmd.kind, log), if InstallDue(cmd) then Some(cmd.target) else None,
                if InstallDue(cmd) then answers.install else None))
  }

  /** Which entries a log of stages has. */
  ghost predicate Shows(cmd: Command, answers: Answers, r: Resync, log: seq<Action>) {
    && (forall b :: Installed(b) in log <==> InstallDue(cmd) && b == answers.install.Some?)
    && (forall b :: Restarted(b) in log <==> RestartDue(cmd, answers) && b == !answers.restartFails)
    && (forall b :: Scheduled(b) in log <==> ScheduleDue(cmd, answers) && b == !answers.scheduleFails)
    && (forall b :: ResetSync(b) in log <==>
          RestartDue(cmd, answers) && !answers.restartFails && ResetSync(b) in r.log)
    && (Heartbeat in log <==> HeartbeatDue(cmd, answers, r.err.None?))
    && (forall v :: Announced(v) in log <==> AnnounceDue(cmd, answers) && v == Version(cmd, answers))
  }

  lemma InWhen(a: Action, due: bool, action: Action)
    ensures a in When(due, action) <==> due && a == action
  {
  }

  lemma InStages(a: Action, cmd: Command, answers: Answers, r: Resync, ack: Ack)
    ensures a in StageLog(cmd, answers, r, ack) <==>
      || (InstallDue(cmd) && a == Installed(answers.install.Some?))
      || (AnnounceDue(cmd, answers) && a == Announced(Version(cmd, answers)))
      || (RestartDue(cmd, answers) && a == Restarted(!answers.restartFails))
      || (RestartDue(cmd, answers) && !answers.restartFails && a in r.log)
      || (ScheduleDue(cmd, answers) && a == Scheduled(!answers.scheduleFails))
      || (HeartbeatDue(cmd, answers, r.err.None?) && a == Heartbeat)
      || a == Acked(cmd.id, ack)
  {
    hide When, InstallDue, AnnounceDue, RestartDue, ScheduleDue, HeartbeatDue, Version;
    InWhen(a, InstallDue(cmd), Installed(answers.install.Some?));
    InWhen(a, AnnounceDue(cmd, answers), Announced(Version(cmd, answers)));
    InWhen(a, RestartDue(cmd, answers), Restarted(!answers.restartFails));
    InWhen(a, ScheduleDue(cmd, answers), Scheduled(!answers.scheduleFails));
    InWhen(a, HeartbeatDue(cmd, answers, r.err.None?), Heartbeat);
  }

  lemma StageLogShows(cmd: Command, answers: Answers, r: Resync, ack: Ack)
    requires forall a | a in r.log :: a.ResetSync?
    ensures Shows(cmd, answers, r, StageLog(cmd, answers, r, ack))
  {
    hide StageLog, InstallDue, AnnounceDue, RestartDue, ScheduleDue, HeartbeatDue, Version;
    forall a {
      InStages(a, cmd, answers, r, ack);
    }
  }

  /** The retry loop's own log: it shows a success exactly when no error is left, and a failure otherwise. */
  ghost predicate ResetsShow(r: Resync) {
    && (forall a | a in r.log :: a.ResetSync?)
    && (ResetSync(true) in r.log <==> r.err.None?)
    && (r.err.Some? ==> ResetSync(false) in r.log)
  }

  lemma ResetsShowWhenBounded(r: Resync)
    requires StopsAtFirstSuccess(r, 6)
    ensures ResetsShow(r)
  {
    ResyncLog(r);
    assert r.log[|r.log| - 1] in r.log;
  }

  lemma CommandResets(env: Env, tags: InboundTags, w: World, kind: Kind, answers: Answers, between: nat -> seq<Step>)
    ensures ResetsShow(ResyncAfterRestart(env, tags, w, kind, answers, between))
  {
    hide Resynchronize, ResetsShow;
    ResyncBounded(env, tags, RestartWorld(env, w, answers), answers.panel, Cancellation(kind, answers), between, 1);
    ResetsShowWhenBounded(ResyncAfterRestart(env, tags, w, kind, answers, between));
  }

  lemma AckOf(w: World, w1: World, r: Resync, cmd: Command, answers: Answers, log: seq<Action>)
    requires Shows(cmd, answers, r, log) && ResetsShow(r)
    ensures Actions(w, w1, r, cmd, answers).ack == AckFor(cmd, answers, log, r.err)
  {
    hide CoreVersion, Version;
  }

  lemma StateOf(env: Env, w: World, r: Resync, cmd: Command, answers: Answers)
    ensures
      Actions(w, RestartWorld(env, w, answers), r, cmd, answers).w ==
        if !RestartDue(cmd, answers) then w
        else if !answers.restartFails then r.w
        else if answers.restartTook then w.(rt := Runtime(env.bootUsers, env.bootRules, w.rt.clock)) else w
  {
    hide CoreVersion;
  }

  /** An acknowledgement is determined by the log it ends and the fields of its command: every status, problem, mode
      and detail; and but for a restart that is due the command leaves the agent's state alone. */
  lemma AckLaw(env: Env, tags: InboundTags, w: World, cmd: Command, answers: Answers, between: nat -> seq<Step>)
    ensures
      var run := Execute(env, tags, w, cmd, answers, between);
      var r := ResyncAfterRestart(env, tags, w, cmd.kind, answers, between);
      && run.ack == AckFor(cmd, answers, run.log, r.err)
      && Shows(cmd, answers, r, run.log) && ResetsShow(r)
      && run.w == (if !RestartDue(cmd, answers) then w
                   else if !answers.restartFails then r.w
                   else if answers.restartTook then w.(rt := Runtime(env.bootUsers, env.bootRules, w.rt.clock)) else w)
  {
    hide *;
    var w1, r := RestartWorld(env, w, answers), ResyncAfterRestart(env, tags, w, cmd.kind, answers, between);
    CommandResets(env, tags, w, cmd.kind, answers, between);
    ExecuteIs(env, tags, w, cmd, answers, between);
    StateOf(env, w, r, cmd, answers);
    ResetsShowEntries(r);
    LogLaw(env, tags, w, cmd, answers, between);
    StageLogShows(cmd, answers, r, Execute(env, tags, w, cmd, answers, between).ack);
    AckOf(w, w1, r, cmd, answers, Execute(env, tags, w, cmd, answers, between).log);
  }

  lemma ResetsShowEntries(r: Resync)
    requires ResetsShow(r)
    ensures forall a | a in r.log :: a.ResetSync?
  {
  }

  lemma ResyncIs(env: Env, tags: InboundTags, w: World, kind: Kind, answers: Answers, between: nat -> seq<Step>)
    ensures ResyncAfterRestart(env, tags, w, kind, answers, between)
         == Resynchronize(env, tags, RestartWorld(env, w, answers), answers.panel, Cancellation(kind, answers),
                          between, 1)
  {
    hide Resynchronize;
  }

  /** So a command is acknowledged as succeeded exactly when it is known, an update names its target, and nothing in
      its log failed for good; what has succeeded was done. */
  lemma SucceededIff(env: Env, tags: InboundTags, w: World, cmd: Command, answers: Answers, between: nat -> seq<Step>)
    ensures
      var run := Execute(env, tags, w, cmd, answers, between);
      var log := run.log;
      && (run.ack.status == Succeeded <==>
            && !cmd.kind.Unknown? && (cmd.kind in {UpdateAgent, UpdateCore} ==> cmd.target != "")
            && Installed(false) !in log && Scheduled(false) !in log && Restarted(false) !in log
            && (ResetSync(false) in log ==> ResetSync(true) in log))
      && (run.ack.status == Succeeded && cmd.kind == RestartAgent ==> Scheduled(true) in log && !answers.scheduleFails)
      && (run.ack.status == Succeeded && cmd.kind == RestartCore ==> Restarted(true) in log && ResetSync(true) in log)
      && (run.ack.status == Succeeded && cmd.kind in {UpdateAgent, UpdateCore} ==>
            && Installed(true) in log && answers.install.Some?
            && (answers.install.value.updated ==>
                  && (cmd.kind == UpdateAgent ==> Scheduled(true) in log && !answers.scheduleFails)
                  && (cmd.kind == UpdateCore ==> Restarted(true) in log && ResetSync(true) in log && Heartbeat in log)))
  {
    AckLaw(env, tags, w, cmd, answers, between);
    hide Execute, ResyncAfterRestart, ModeIn;
  }

  // ---------- the resets of a command ----------

  function ResetsIn(log: seq<Action>): seq<Action> {
    if log == [] then []
    else if log[0].ResetSync? then [log[0]] + ResetsIn(log[1..])
    else ResetsIn(log[1..])
  }

  lemma {:induction false} ResetsConcat(xs: seq<Action>, ys: seq<Action>)
    ensures ResetsIn(xs + ys) == ResetsIn(xs) + ResetsIn(ys)
  {
    if xs == [] {
      assert xs + ys == ys;
    } else {
      ResetsConcat(xs[1..], ys);
      assert (xs + ys)[1..] == xs[1..] + ys;
    }
  }

  lemma {:induction false} OnlyResets(log: seq<Action>)
    ensures (forall a | a in log :: a.ResetSync?) ==> ResetsIn(log) == log
    ensures (forall a | a in log :: !a.ResetSync?) ==> ResetsIn(log) == []
  {
    if log != [] {
      assert log == [log[0]] + log[1..] && log[0] in log;
      OnlyResets(log[1..]);
    }
  }

  lemma NoResetWhen(due: bool, a: Action)
    requires !a.ResetSync?
    ensures ResetsIn(When(due, a)) == []
  {
    OnlyResets(When(due, a));
  }

  lemma ResetsAmid(before: seq<Action>, more: seq<Action>)
    requires ResetsIn(more) == []
    ensures ResetsIn(before + more) == ResetsIn(before)
  {
    ResetsConcat(before, more);
    assert ResetsIn(before) + [] == ResetsIn(before);
  }

  lemma ResetsOfStages(cmd: Command, answers: Answers, r: Resync, ack: Ack)
    requires forall a | a in r.log :: a.ResetSync?
    ensures ResetsIn(StageLog(cmd, answers, r, ack))
         == if RestartDue(cmd, answers) && !answers.restartFails then r.log else []
  {
    var install, version := When(InstallDue(cmd), Installed(answers.install.Some?)), Version(cmd, answers);
    var announce := When(AnnounceDue(cmd, answers), Announced(version));
    var restart := When(RestartDue(cmd, answers), Restarted(!answers.restartFails));
    var resets := if RestartDue(cmd, answers) && !answers.restartFails then r.log else [];
    var schedule := When(ScheduleDue(cmd, answers), Scheduled(!answers.scheduleFails));
    var heartbeat := When(HeartbeatDue(cmd, answers, r.err.None?), Heartbeat);
    var acked := [Acked(cmd.id, ack)];
    assert StageLog(cmd, answers, r, ack) == install + announce + restart + resets + schedule + heartbeat + acked;
    assert When(true, Acked(cmd.id, ack)) == acked;
    hide *;
    NoResetWhen(InstallDue(cmd), Installed(answers.install.Some?));
    NoResetWhen(AnnounceDue(cmd, answers), Announced(version));
    NoResetWhen(RestartDue(cmd, answers), Restarted(!answers.restartFails));
    NoResetWhen(ScheduleDue(cmd, answers), Scheduled(!answers.scheduleFails));
    NoResetWhen(HeartbeatDue(cmd, answers, r.err.None?), Heartbeat);
    NoResetWhen(true, Acked(cmd.id, ack));
    OnlyResets(resets);
    ResetsAmid(install, announce);
    ResetsAmid(install + announce, restart);
    ResetsConcat(install + announce + restart, resets);
    ResetsAmid(install + announce + restart + resets, schedule);
    ResetsAmid(install + announce + restart + resets + schedule, heartbeat);
    ResetsAmid(install + announce + restart + resets + schedule + heartbeat, acked);
  }

  lemma SameWaits(env: Env, tags: InboundTags, w: World, panel: nat -> Option<PanelState>, cancelled: nat -> bool,
                  cancelled': nat -> bool, between: nat -> seq<Step>, k: nat)
    requires forall i :: cancelled(i) == cancelled'(i)
    ensures StopsAt(env, tags, w, panel, cancelled, between, 1, k)
       <==> StopsAt(env, tags, w, panel, cancelled', between, 1, k)
  {
    hide AttemptError;
  }

  /** After a restart that works, a command tries resets from the state of the booted core until the first success,
      the sixth failure or, for a restart but not for an update, a cancelled wait. */
  lemma ResetsLaw(env: Env, tags: InboundTags, w: World, cmd: Command, answers: Answers, between: nat -> seq<Step>,
                  never: nat -> bool, k: nat)
    requires RestartDue(cmd, answers) && !answers.restartFails && 1 <= k <= 6 && forall i :: !never(i)
    ensures
      var run := Execute(env, tags, w, cmd, answers, between);
      var booted := w.(rt := Runtime(env.bootUsers, env.bootRules, w.rt.clock));
      && (cmd.kind == RestartCore ==>
            (|ResetsIn(run.log)| == k <==>
             StopsAt(env, tags, booted, answers.panel, answers.cancelled, between, 1, k)))
      && (cmd.kind == UpdateCore ==>
            (|ResetsIn(run.log)| == k <==> StopsAt(env, tags, booted, answers.panel, never, between, 1, k)))
  {
    var w1, r := RestartWorld(env, w, answers), ResyncAfterRestart(env, tags, w, cmd.kind, answers, between);
    var waits := Cancellation(cmd.kind, answers);
    assert cmd.kind == UpdateCore ==> forall i :: waits(i) == never(i);
    assert cmd.kind == RestartCore ==> waits == answers.cancelled;
    assert w1 == w.(rt := Runtime(env.bootUsers, env.bootRules, w.rt.clock));
    hide *;
    AckLaw(env, tags, w, cmd, answers, between);
    ResetsShowEntries(r);
    LogLaw(env, tags, w, cmd, answers, between);
    ResetsOfStages(cmd, answers, r, Execute(env, tags, w, cmd, answers, between).ack);
    ResyncIs(env, tags, w, cmd.kind, answers, between);
    ResyncStopsIff(env, tags, w1, answers.panel, waits, between, 1, k);
    if cmd.kind == UpdateCore {
      SameWaits(env, tags, w1, answers.panel, waits, never, between, k);
    }
  }

  /** Failures, the last of them perhaps a success: the shape of any retry. */
  ghost predicate Retries(resets: seq<Action>, waits: nat -> bool, good: bool) {
    && 1 <= |resets| <= 6 && (forall i | 0 <= i < |resets| - 1 :: resets[i] == ResetSync(false))
    && resets[|resets| - 1] == ResetSync(good)
    && (!good && |resets| < 6 ==> waits(|resets|))
    && (resets[0] == ResetSync(false) && waits(1) ==> |resets| == 1)
  }

  lemma RetryShape(env: Env, tags: InboundTags, w: World, panel: nat -> Option<PanelState>, waits: nat -> bool,
                   between: nat -> seq<Step>)
    ensures var r := Resynchronize(env, tags, w, panel, waits, between, 1); Retries(r.log, waits, r.err.None?)
  {
    hide Resynchronize, AttemptError, StopsAt;
    ResyncBounded(env, tags, w, panel, waits, between, 1);
    ResyncStopsIff(env, tags, w, panel, waits, between, 1, 1);
    OneAttempt(env, tags, w, panel, waits, between, 1);
  }

  lemma GoodIff(env: Env, tags: InboundTags, w: World, cmd: Command, answers: Answers, between: nat -> seq<Step>)
    requires RestartDue(cmd, answers) && !answers.restartFails
    ensures Execute(env, tags, w, cmd, answers, between).ack.status == Succeeded
       <==> ResyncAfterRestart(env, tags, w, cmd.kind, answers, between).err.None?
  {
    AckLaw(env, tags, w, cmd, answers, between);
    hide Execute, ResyncAfterRestart, ModeIn;
  }

  lemma WaitsOf(cmd: Command, answers: Answers, i: nat)
    ensures cmd.kind == RestartCore ==> Cancellation(cmd.kind, answers)(i) == answers.cancelled(i)
    ensures cmd.kind == UpdateCore ==> !Cancellation(cmd.kind, answers)(i)
  {
  }

  /** So an updated core whose restart works ends in a success or in six failed resets, whatever waits are cancelled;
      and a restart whose first reset fails and whose first wait is cancelled ends there. */
  lemma Persistence(env: Env, tags: InboundTags, w: World, cmd: Command, answers: Answers, between: nat -> seq<Step>)
    requires RestartDue(cmd, answers) && !answers.restartFails
    ensures
      var run := Execute(env, tags, w, cmd, answers, between);
      var resets := ResetsIn(run.log);
      && 1 <= |resets| <= 6
      && (forall i | 0 <= i < |resets| - 1 :: resets[i] == ResetSync(false))
      && resets[|resets| - 1] == ResetSync(run.ack.status == Succeeded)
      && (run.ack.status == Status.Failed && cmd.kind == UpdateCore ==> |resets| == 6)
      && (run.ack.status == Status.Failed && cmd.kind == RestartCore && |resets| < 6 ==> answers.cancelled(|resets|))
      && (cmd.kind == RestartCore && resets[0] == ResetSync(false) && answers.cancelled(1) ==> |resets| == 1)
  {
    var w1, r := RestartWorld(env, w, answers), ResyncAfterRestart(env, tags, w, cmd.kind, answers, between);
    var waits := Cancellation(cmd.kind, answers);
    LogLaw(env, tags, w, cmd, answers, between);
    CommandResets(env, tags, w, cmd.kind, answers, between);
    ResetsShowEntries(r);
    ResetsOfStages(cmd, answers, r, Execute(env, tags, w, cmd, answers, between).ack);
    ResyncIs(env, tags, w, cmd.kind, answers, between);
    RetryShape(env, tags, w1, answers.panel, waits, between);
    GoodIff(env, tags, w, cmd, answers, between);
    WaitsOf(cmd, answers, |r.log|);
    WaitsOf(cmd, answers, 1);
    hide *;
    RetriesMean(r.log, waits, r.err.None?);
  }

  lemma RetriesMean(resets: seq<Action>, waits: nat -> bool, good: bool)
    requires Retries(resets, waits, good)
    ensures 1 <= |resets| <= 6 && forall i | 0 <= i < |resets| - 1 :: resets[i] == ResetSync(false)
    ensures resets[|resets| - 1] == ResetSync(good)
    ensures !good && |resets| < 6 ==> waits(|resets|)
    ensures resets[0] == ResetSync(false) && waits(1) ==> |resets| == 1
  {
  }
}
