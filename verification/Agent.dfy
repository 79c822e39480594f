/** The agent object: its loops' bodies as methods, proved against the state machines of the other modules. */
module Agent {
  import opened Model
  import opened Routes
  import opened Runtime
  import opened Diff
  import opened Apply
  import opened Batch
  import opened Reconciler
  import opened Runs
  import opened Commands
  import opened Usage
  import opened Reporting
  import Store
  import Manager
  import Meter
  import ResetRead

  /** What asking the panel for a command came to. */
  datatype NextCommand = Unreachable | Nothing | Ready(cmd: Command)

  datatype LoopError = FetchFailed | AckFailed(id: string)

  lemma SortedIsOrder(emails: seq<string>)
    requires StrictlySorted(emails)
    ensures ResetRead.Distinct(emails) && IsOrderOf(emails, Meter.Addresses(emails))
  {
    forall i, j | 0 <= i < j < |emails| ensures emails[i] != emails[j] {
      NotLess(emails[i]);
    }
  }

  lemma {:induction false} NotLess(a: string)
    ensures !Less(a, a)
  {
    if a != [] {
      NotLess(a[1..]);
    }
  }

  lemma NoSteps(env: Env, tags: InboundTags, w: World)
    ensures LegalRun(env, tags, w, []) && After(env, tags, w, []) == w
  {
  }

  lemma NothingAttempted(env: Env, tags: InboundTags, w: World, panel: nat -> Option<PanelState>,
                         cancelled: nat -> bool, between: nat -> seq<Step>)
    ensures Attempted(env, tags, w, panel, cancelled, between, 1, 1, w, [])
  {
  }

  /** A reset compares with nothing, so there is nothing to remove and no order to choose. */
  lemma ResetOrders(w: World, ds: PanelState, userOrder: seq<string>, ruleOrder: seq<string>)
    requires LegalSync(w, true, Some(ds), userOrder, ruleOrder)
    ensures userOrder == [] && ruleOrder == []
  {
    HasMember(userOrder);
    HasMember(ruleOrder);
  }

  lemma {:induction false} WalkAppend(lower: string -> string, current: map<string, Usage>, order: seq<string>,
                                      snapshot: map<string, Usage>, deltas: map<string, Usage>, e: string)
    requires e in current && forall f | f in order :: f in current
    ensures forall f | f in order + [e] :: f in current
    ensures var (next, out) := Walk(lower, current, order, snapshot, deltas);
      Walk(lower, current, order + [e], snapshot, deltas)
        == (next[lower(e) := current[e]], out[e := SampleDelta(next, lower(e), current[e])])
    decreases order
  {
    if order == [] {
      assert order + [e] == [e];
    } else {
      var f := order[0];
      assert order == [f] + order[1..] && (order + [e])[1..] == order[1..] + [e];
      WalkAppend(lower, current, order[1..], snapshot[lower(f) := current[f]],
                 deltas[f := SampleDelta(snapshot, lower(f), current[f])], e);
    }
  }

  /** What goes on around the usage loop, and its own rounds: bytes carried, a restart of the core, or what the other
      loops do and then a round whose report, if one is sent, arrives or does not. */
  datatype Happening = Carried(bytes: ResetRead.Tally) | CoreDown | Round(doings: seq<Doing>, arrives: bool)

  predicate Did(event: Meter.Event, h: Happening) {
    match h
    case Carried(bytes) => event == Meter.Traffic(bytes)
    case CoreDown => event == Meter.CoreReset
    case Round(_, arrives) => event.Poll? && event.posted == arrives
  }

  ghost predicate Happened(events: seq<Meter.Event>, happenings: seq<Happening>) {
    |events| == |happenings| && forall i | 0 <= i < |events| :: Did(events[i], happenings[i])
  }

  lemma ClockOf(service: ResetRead.StatsService)
    ensures service.Value().clock == service.clock
  {
  }

  lemma ReportedAll(lower: string -> string, emails: seq<string>, bytes: map<string, Usage>)
    requires bytes.Keys == Meter.Addresses(emails)
    ensures Report(lower, emails, bytes) == [] <==> emails == []
  {
    ReportLength(lower, emails, bytes);
  }

  /** What another loop may do to the shared state while this one does not hold the lock. */
  datatype Doing = Synchronizing(assumeEmpty: bool, response: Option<PanelState>) | CoreRestarting

  predicate Does(step: Step, doing: Doing) {
    match doing
    case CoreRestarting => step.Restart?
    case Synchronizing(assumeEmpty, response) =>
      step.Synchronize? && step.assumeEmpty == assumeEmpty && step.response == response
  }

  ghost predicate Performs(steps: seq<Step>, doings: seq<Doing>) {
    |steps| == |doings| && forall i | 0 <= i < |steps| :: Does(steps[i], doings[i])
  }

  /** A record of steps for what was not done after all. */
  function Undone(doings: seq<Doing>): (steps: seq<Step>)
    ensures Performs(steps, doings)
  {
    seq(|doings|, i requires 0 <= i < |doings| =>
      if doings[i].CoreRestarting? then Restart else Synchronize(doings[i].assumeEmpty, doings[i].response, [], []))
  }

  lemma {:induction false} RunMore(env: Env, tags: InboundTags, w: World, steps: seq<Step>, step: Step)
    requires LegalRun(env, tags, w, steps) && Legal(After(env, tags, w, steps), step)
    ensures LegalRun(env, tags, w, steps + [step])
    ensures After(env, tags, w, steps + [step]) == Next(env, tags, After(env, tags, w, steps), step)
    decreases steps
  {
    hide Next, Legal;
    if steps == [] {
      assert [] + [step] == [step] && [step][1..] == [];
    } else {
      assert (steps + [step])[0] == steps[0] && (steps + [step])[1..] == steps[1..] + [step];
      RunMore(env, tags, Next(env, tags, w, steps[0]), steps[1..], step);
    }
  }

  /** Attempts from..until of a retry loop that started in `w` have all failed and led to `w'`. */
  ghost predicate Attempted(env: Env, tags: InboundTags, w: World, panel: nat -> Option<PanelState>,
                            cancelled: nat -> bool, between: nat -> seq<Step>, from: nat, until: nat, w': World,
                            log: seq<Action>)
    decreases until - from
  {
    if from >= until then w' == w && log == []
    else
      var (w1, err) := Sync(env, tags, After(env, tags, w, between(from)), true, panel(from), [], []);
      && err.Some? && from < CORE_RESTART_SYNC_RETRIES && !cancelled(from)
      && log != [] && log[0] == ResetSync(false)
      && Attempted(env, tags, w1, panel, cancelled, between, from + 1, until, w', log[1..])
  }

  lemma {:induction false} AttemptedSame(env: Env, tags: InboundTags, w: World, panel: nat -> Option<PanelState>,
                                         cancelled: nat -> bool, between: nat -> seq<Step>, between': nat -> seq<Step>,
                                         from: nat, until: nat, w': World, log: seq<Action>)
    requires Attempted(env, tags, w, panel, cancelled, between, from, until, w', log)
    requires forall i | from <= i < until :: between(i) == between'(i)
    ensures Attempted(env, tags, w, panel, cancelled, between', from, until, w', log)
    decreases until - from
  {
    if from < until {
      hide Sync, After;
      var w1 := Sync(env, tags, After(env, tags, w, between(from)), true, panel(from), [], []).0;
      AttemptedSame(env, tags, w1, panel, cancelled, between, between', from + 1, until, w', log[1..]);
    }
  }

  lemma {:induction false} AttemptedMore(env: Env, tags: InboundTags, w: World, panel: nat -> Option<PanelState>,
                                         cancelled: nat -> bool, between: nat -> seq<Step>, from: nat, until: nat,
                                         w': World, log: seq<Action>)
    requires from <= until < CORE_RESTART_SYNC_RETRIES && !cancelled(until)
    requires Attempted(env, tags, w, panel, cancelled, between, from, until, w', log)
    requires Sync(env, tags, After(env, tags, w', between(until)), true, panel(until), [], []).1.Some?
    ensures
      var w1 := Sync(env, tags, After(env, tags, w', between(until)), true, panel(until), [], []).0;
      Attempted(env, tags, w, panel, cancelled, between, from, until + 1, w1, log + [ResetSync(false)])
    decreases until - from
  {
    hide Sync, After;
    if from < until {
      var w1 := Sync(env, tags, After(env, tags, w, between(from)), true, panel(from), [], []).0;
      assert (log + [ResetSync(false)])[1..] == log[1..] + [ResetSync(false)];
      AttemptedMore(env, tags, w1, panel, cancelled, between, from + 1, until, w', log[1..]);
    } else {
      assert (log + [ResetSync(false)])[1..] == [];
    }
  }

  lemma ResyncUnfold(env: Env, tags: InboundTags, w: World, panel: nat -> Option<PanelState>,
                     cancelled: nat -> bool, between: nat -> seq<Step>, attempt: nat)
    requires 1 <= attempt < CORE_RESTART_SYNC_RETRIES && !cancelled(attempt)
    requires Sync(env, tags, After(env, tags, w, between(attempt)), true, panel(attempt), [], []).1.Some?
    ensures
      var w1 := Sync(env, tags, After(env, tags, w, between(attempt)), true, panel(attempt), [], []).0;
      var later := Resynchronize(env, tags, w1, panel, cancelled, between, attempt + 1);
      Resynchronize(env, tags, w, panel, cancelled, between, attempt)
        == Resync(later.w, later.err, [ResetSync(false)] + later.log)
  {
    hide Sync, After;
  }

  lemma AttemptedUnfold(env: Env, tags: InboundTags, w: World, panel: nat -> Option<PanelState>,
                        cancelled: nat -> bool, between: nat -> seq<Step>, from: nat, until: nat, w': World,
                        log: seq<Action>)
    requires Attempted(env, tags, w, panel, cancelled, between, from, until, w', log)
    ensures from >= until ==> w' == w && log == []
    ensures from < until ==>
      var (w1, err) := Sync(env, tags, After(env, tags, w, between(from)), true, panel(from), [], []);
      && err.Some? && from < CORE_RESTART_SYNC_RETRIES && !cancelled(from)
      && log != [] && log == [ResetSync(false)] + log[1..]
      && Attempted(env, tags, w1, panel, cancelled, between, from + 1, until, w', log[1..])
  {
    hide Sync, After;
  }

  /** The whole loop is then what remains of it, after the attempts already logged. */
  lemma {:induction false} AttemptedThen(env: Env, tags: InboundTags, w: World, panel: nat -> Option<PanelState>,
                                         cancelled: nat -> bool, between: nat -> seq<Step>, from: nat, until: nat,
                                         w': World, log: seq<Action>)
    requires 1 <= from <= until <= CORE_RESTART_SYNC_RETRIES
    requires Attempted(env, tags, w, panel, cancelled, between, from, until, w', log)
    ensures
      var whole := Resynchronize(env, tags, w, panel, cancelled, between, from);
      var later := Resynchronize(env, tags, w', panel, cancelled, between, until);
      whole == Resync(later.w, later.err, log + later.log)
    decreases until - from
  {
    hide *;
    var later := Resynchronize(env, tags, w', panel, cancelled, between, until);
    AttemptedUnfold(env, tags, w, panel, cancelled, between, from, until, w', log);
    if from < until {
      var w1 := Sync(env, tags, After(env, tags, w, between(from)), true, panel(from), [], []).0;
      AttemptedThen(env, tags, w1, panel, cancelled, between, from + 1, until, w', log[1..]);
      ResyncUnfold(env, tags, w, panel, cancelled, between, from);
      assert [ResetSync(false)] + (log[1..] + later.log) == ([ResetSync(false)] + log[1..]) + later.log;
    } else {
      assert [] + later.log == later.log;
    }
  }

  /** The loop ends with this attempt: it succeeded, was the last one, or the wait after it is cancelled. */
  lemma AttemptEnds(env: Env, tags: InboundTags, w: World, panel: nat -> Option<PanelState>, cancelled: nat -> bool,
                    between: nat -> seq<Step>, attempt: nat, w': World, log: seq<Action>)
    requires 1 <= attempt <= CORE_RESTART_SYNC_RETRIES
    requires Attempted(env, tags, w, panel, cancelled, between, 1, attempt, w', log)
    ensures
      var (w1, err) := Sync(env, tags, After(env, tags, w', between(attempt)), true, panel(attempt), [], []);
      err.None? || attempt == CORE_RESTART_SYNC_RETRIES || cancelled(attempt) ==>
        Resynchronize(env, tags, w, panel, cancelled, between, 1)
          == Resync(w1, if err.Some? && attempt < CORE_RESTART_SYNC_RETRIES then Some(Cancelled) else err,
                    log + [ResetSync(err.None?)])
  {
    hide Sync, After, Attempted;
    AttemptedThen(env, tags, w, panel, cancelled, between, 1, attempt, w', log);
  }

  class Agent {
    const state: Store.Store
    const xray: Manager.Manager
    const lower: string -> string
    const stats: ResetRead.Collector
    var statsSnapshot: map<string, Usage>
    var log: seq<Action>
    var pushes: seq<Push>

    constructor (state: Store.Store, xray: Manager.Manager, lower: string -> string, stats: ResetRead.Collector)
      ensures this.state == state && this.xray == xray && this.lower == lower && this.stats == stats
      ensures statsSnapshot == map[] && log == [] && pushes == []
    {
      this.state, this.xray, this.lower, this.stats := state, xray, lower, stats;
      statsSnapshot, log, pushes := map[], [], [];
    }

    function Value(): World
      reads state, xray.core
    {
      World(state.lastVersion, state.clients, state.routes, xray.core.Value())
    }

    // ---------- synchronisation ----------

    method SyncState(assumeEmpty: bool, response: Option<PanelState>)
      returns (err: Option<Error>, ghost userOrder: seq<string>, ghost ruleOrder: seq<string>)
      modifies state, xray.core
      ensures LegalSync(old(Value()), assumeEmpty, response, userOrder, ruleOrder)
      ensures (Value(), err)
           == Sync(xray.core.env, xray.tags, old(Value()), assumeEmpty, response, userOrder, ruleOrder)
      ensures response.None? ==> err == Some(PanelUnreachable) && Value() == old(Value())
    {
      hide Normalize, UserOps, RuleOps;
      if response.None? {
        return Some(PanelUnreachable), [], [];
      }
      var ds := response.value;
      var rules, _ := NormalizeRouteRules(ds.routes);
      if !assumeEmpty {
        var same := state.IsUnchanged(ds.version, ds.clients, rules);
        if same {
          return None, [], [];
        }
      }
      var current := state.ClientsSnapshot();
      var currentRoutes := state.RoutesSnapshot();
      if assumeEmpty {
        current, currentRoutes := map[], map[];
      }
      var changed;
      changed, err, userOrder, ruleOrder := xray.State(current, ds.clients, currentRoutes, rules);
      if err.Some? {
        return err, userOrder, ruleOrder;
      }
      state.Update(ds.version, ds.clients, rules);
    }

    method SyncStateAfterRuntimeReset(response: Option<PanelState>) returns (err: Option<Error>)
      modifies state, xray.core
      ensures (Value(), err) == Sync(xray.core.env, xray.tags, old(Value()), true, response, [], [])
    {
      ghost var w := Value();
      ghost var userOrder, ruleOrder;
      err, userOrder, ruleOrder := SyncState(true, response);
      if response.Some? {
        ResetOrders(w, response.value, userOrder, ruleOrder);
      }
    }

    /** The other loops at work: each synchronisation takes the lock in turn, and the core may restart. */
    method OtherLoops(doings: seq<Doing>) returns (ghost steps: seq<Step>)
      modifies state, xray.core
      ensures Performs(steps, doings) && LegalRun(xray.core.env, xray.tags, old(Value()), steps)
      ensures Value() == After(xray.core.env, xray.tags, old(Value()), steps)
    {
      hide After, LegalRun, Sync;
      ghost var w := Value();
      steps := [];
      NoSteps(xray.core.env, xray.tags, w);
      for i := 0 to |doings|
        invariant Performs(steps, doings[..i]) && LegalRun(xray.core.env, xray.tags, w, steps)
        invariant Value() == After(xray.core.env, xray.tags, w, steps)
      {
        ghost var before, step := Value(), Restart;
        if doings[i].CoreRestarting? {
          xray.core.Restart();
        } else {
          ghost var userOrder, ruleOrder;
          var err;
          err, userOrder, ruleOrder := SyncState(doings[i].assumeEmpty, doings[i].response);
          step := Synchronize(doings[i].assumeEmpty, doings[i].response, userOrder, ruleOrder);
        }
        assert Value() == Next(xray.core.env, xray.tags, before, step);
        RunMore(xray.core.env, xray.tags, w, steps, step);
        steps := steps + [step];
      }
      assert doings[..|doings|] == doings;
    }

    /** At most six attempts, a wait between any two, during which other loops may run. */
    method SyncStateAfterCoreRestart(panel: nat -> Option<PanelState>, cancelled: nat -> bool,
                                     others: nat -> seq<Doing>)
      returns (err: Option<Error>, ghost between: nat -> seq<Step>)
      modifies this`log, state, xray.core
      ensures forall i :: Performs(between(i), others(i))
      ensures
        var r := Resynchronize(xray.core.env, xray.tags, old(Value()), panel, cancelled, between, 1);
        Value() == r.w && err == r.err && log == old(log) + r.log
    {
      hide Resynchronize, Sync, After, Attempted;
      ghost var w, done: seq<Action> := Value(), [];
      between := (i: nat) => Undone(others(i));
      NothingAttempted(xray.core.env, xray.tags, w, panel, cancelled, between);
      var lastErr: Option<Error> := None;
      var attempt: nat := 1;
      while attempt <= CORE_RESTART_SYNC_RETRIES
        invariant 1 <= attempt <= CORE_RESTART_SYNC_RETRIES && log == old(log) + done
        invariant forall i :: Performs(between(i), others(i))
        invariant Attempted(xray.core.env, xray.tags, w, panel, cancelled, between, 1, attempt, Value(), done)
        decreases CORE_RESTART_SYNC_RETRIES - attempt
      {
        ghost var w1, before := Value(), between;
        ghost var steps := OtherLoops(others(attempt));
        between := (i: nat) => if i == attempt then steps else before(i);
        AttemptedSame(xray.core.env, xray.tags, w, panel, cancelled, before, between, 1, attempt, w1, done);
        AttemptEnds(xray.core.env, xray.tags, w, panel, cancelled, between, attempt, w1, done);
        lastErr := SyncStateAfterRuntimeReset(panel(attempt));
        log := log + [ResetSync(lastErr.None?)];
        if lastErr.None? {
          return None, between;
        }
        if attempt >= CORE_RESTART_SYNC_RETRIES {
          break;
        }
        if cancelled(attempt) {
          return Some(Cancelled), between;
        }
        AttemptedMore(xray.core.env, xray.tags, w, panel, cancelled, between, 1, attempt, w1, done);
        done := done + [ResetSync(false)];
        attempt := attempt + 1;
      }
      return lastErr, between;
    }

    // ---------- usage ----------

    method NormalizeStatsDeltas(current: map<string, Usage>)
      returns (normalized: map<string, Usage>, ghost order: seq<string>)
      modifies this`statsSnapshot
      ensures IsOrderOf(order, current.Keys)
      ensures (statsSnapshot, normalized) == NormalizeDeltas(lower, old(statsSnapshot), current, order)
    {
      order := [];
      if |current| == 0 {
        statsSnapshot := map[];
        return current, order;
      }
      var present: set<string> := {};
      normalized, present, order := SampleAll(current);
      Prune(present);
    }

    /** One sample per measured address, in the order the map yields them. */
    method SampleAll(current: map<string, Usage>)
      returns (normalized: map<string, Usage>, present: set<string>, ghost order: seq<string>)
      modifies this`statsSnapshot
      ensures IsOrderOf(order, current.Keys) && present == Present(lower, current.Keys)
      ensures (statsSnapshot, normalized) == Walk(lower, current, order, old(statsSnapshot), map[])
    {
      normalized, present, order := map[], {}, [];
      var todo := current.Keys;
      while todo != {}
        invariant todo <= current.Keys && IsOrderOf(order, current.Keys - todo)
        invariant present == Present(lower, current.Keys - todo)
        invariant (statsSnapshot, normalized) == Walk(lower, current, order, old(statsSnapshot), map[])
        decreases todo
      {
        var email :| email in todo;
        var usage, key := current[email], lower(email);
        SetStep(current.Keys, todo, email);
        OrderAppend(order, current.Keys - todo, email);
        WalkAppend(lower, current, order, old(statsSnapshot), map[], email);
        present := present + {key};
        var up, down := 0, 0;
        if key in statsSnapshot {
          up := CounterDelta(statsSnapshot[key].up, usage.up);
          down := CounterDelta(statsSnapshot[key].down, usage.down);
        }
        normalized := normalized[email := Usage(up, down)];
        statsSnapshot := statsSnapshot[key := usage];
        order, todo := order + [email], todo - {email};
      }
    }

    /** Forgets the addresses that were not sampled this time. */
    method Prune(present: set<string>)
      modifies this`statsSnapshot
      ensures statsSnapshot == map k | k in old(statsSnapshot) && k in present :: old(statsSnapshot)[k]
    {
      var todo := statsSnapshot.Keys;
      while todo != {}
        invariant forall k :: k in statsSnapshot <==> k in old(statsSnapshot) && (k in todo || k in present)
        invariant forall k | k in statsSnapshot :: statsSnapshot[k] == old(statsSnapshot)[k]
        decreases todo
      {
        var email :| email in todo;
        if email !in present {
          statsSnapshot := statsSnapshot - {email};
        }
        todo := todo - {email};
      }
    }

    /** One round of the usage loop.  With nobody to ask about it does nothing, not even query; after a failed
        query nothing is sent and the snapshot stays; otherwise exactly one report is sent, and what becomes of it
        changes nothing else. */
    method CollectUsage(arrives: bool) returns (ghost emails: seq<string>, ghost order: seq<string>)
      modifies this`statsSnapshot, this`pushes, stats.stats
      ensures StrictlySorted(emails) && forall e :: e in emails <==> e in state.clients
      ensures Meter.LegalEvent(Meter.Poll(emails, order, arrives)) && IsOrderOf(emails, Meter.Addresses(emails))
      ensures emails == [] ==>
        stats.stats.Value() == old(stats.stats.Value()) && statsSnapshot == old(statsSnapshot) && pushes == old(pushes)
      ensures emails != [] ==>
        var (server, snapshot, bytes) := Collect(lower, stats.reset, stats.stats.env, old(stats.stats.Value()),
                                                 old(statsSnapshot), emails, order);
        && stats.stats.Value() == server && statsSnapshot == snapshot
        && pushes == if bytes.None? then old(pushes)
                     else old(pushes) + [Push(Report(lower, emails, bytes.value), arrives)]
      ensures
        var clock := old(stats.stats.clock);
        |pushes| == |old(pushes)| +
          if emails != [] && ResetRead.AllAnswered(stats.stats.env, clock, clock + 2 * |emails|) then 1 else 0
    {
      var sorted := SortedEmails();
      emails, order := sorted, sorted;
      SortedIsOrder(sorted);
      if |sorted| == 0 {
        return;
      }
      hide *;
      order := CollectFor(sorted, arrives);
    }

    /** The same for a given list of addresses. */
    method CollectFor(emails: seq<string>, arrives: bool) returns (ghost order: seq<string>)
      requires emails != [] && IsOrderOf(emails, Meter.Addresses(emails))
      modifies this`statsSnapshot, this`pushes, stats.stats
      ensures IsOrderOf(order, Meter.Addresses(emails))
      ensures
        var (server, snapshot, bytes) := Collect(lower, stats.reset, stats.stats.env, old(stats.stats.Value()),
                                                 old(statsSnapshot), emails, order);
        && stats.stats.Value() == server && statsSnapshot == snapshot
        && pushes == if bytes.None? then old(pushes)
                     else old(pushes) + [Push(Report(lower, emails, bytes.value), arrives)]
      ensures
        var clock := old(stats.stats.clock);
        |pushes| == |old(pushes)| +
          if ResetRead.AllAnswered(stats.stats.env, clock, clock + 2 * |emails|) then 1 else 0
    {
      hide *;
      order := emails;
      ghost var s, snapshot := stats.stats.Value(), statsSnapshot;
      CollectIsQuery(lower, stats.reset, stats.stats.env, s, snapshot, emails, order);
      CollectAnsweredIff(lower, stats.reset, stats.stats.env, s, snapshot, emails, order);
      ClockOf(stats.stats);
      var answer := stats.QueryUsers(emails);
      if answer.None? {
        return;
      }
      var bytes := Meter.AsUsage(answer.value);
      if !stats.reset {
        bytes, order := NormalizeStatsDeltas(bytes);
        CollectIsQuery(lower, false, stats.stats.env, s, snapshot, emails, order);
      } else if |statsSnapshot| > 0 {
        statsSnapshot := map[];
      }
      CollectAnsweredIff(lower, stats.reset, stats.stats.env, s, snapshot, emails, order);
      ReportedAll(lower, emails, bytes);
      Send(emails, bytes, arrives);
    }

    /** An empty report is not sent. */
    method Send(emails: seq<string>, bytes: map<string, Usage>, arrives: bool)
      modifies this`pushes
      ensures var report := Report(lower, emails, bytes);
        pushes == if report == [] then old(pushes) else old(pushes) + [Push(report, arrives)]
    {
      var report := MakeReport(emails, bytes);
      if |report| > 0 {
        pushes := pushes + [Push(report, arrives)];
      }
    }

    /** One thing that happens around the usage loop, or one of its rounds: a step of `Meter` or of `ResetRead`.  What
        the panel has added up agrees with what those books say was delivered, and goes on to do so. */
    method Happen(h: Happening, ghost m: Meter.Meter, ghost b: ResetRead.Books, ghost received: map<string, Usage>)
      returns (ghost event: Meter.Event, ghost round: ResetRead.Round, ghost sent: seq<Push>)
      requires !stats.reset ==>
        && m.server == stats.stats.Value() && m.snapshot == statsSnapshot && Agree(lower, m.delivered, received)
      requires stats.reset ==> b.server == stats.stats.Value() && Agree(lower, PanelBooks(b.delivered), received)
      modifies this`statsSnapshot, this`pushes, stats.stats, state, xray.core
      ensures Meter.LegalEvent(event) && SameEvent(event, round) && Did(event, h) && pushes == old(pushes) + sent
      ensures !stats.reset ==>
        var m' := Meter.NextMeter(lower, Meter.Same, stats.stats.env, m, event);
        && m'.server == stats.stats.Value() && m'.snapshot == statsSnapshot
        && Agree(lower, m'.delivered, ReceivedAll(received, sent))
      ensures stats.reset ==>
        var b' := ResetRead.NextBooks(stats.stats.env, b, round);
        b'.server == stats.stats.Value() && Agree(lower, PanelBooks(b'.delivered), ReceivedAll(received, sent))
    {
      hide Agree, PanelBooks, Meter.PollMeter, Received, Report, ResetRead.QueryUserBytes, Collect, Meter.Addresses;
      hide After, LegalRun, ResetRead.Total, ReceivedAll;
      sent := [];
      ReceivedOne(received, Push([], false));
      match h
      case Carried(bytes) =>
        stats.stats.Carry(bytes);
        event, round := Meter.Traffic(bytes), ResetRead.Traffic(bytes);
      case CoreDown =>
        stats.stats.Restart();
        event, round := Meter.CoreReset, ResetRead.CoreReset;
      case Round(doings, arrives) =>
        ghost var env, s, snapshot := stats.stats.env, stats.stats.Value(), statsSnapshot;
        ghost var steps := OtherLoops(doings);
        ghost var emails, order := CollectUsage(arrives);
        event, round := Meter.Poll(emails, order, arrives), ResetRead.Poll(emails, arrives);
        if emails == [] {
          if stats.reset {
            NobodyAgrees(lower, env, b, arrives, received);
          }
        } else {
          ghost var bytes := Collect(lower, stats.reset, env, s, snapshot, emails, order).2;
          if bytes.Some? {
            sent := [Push(Report(lower, emails, bytes.value), arrives)];
            ReceivedOne(received, sent[0]);
          }
          if stats.reset {
            RoundAgrees(lower, env, b, snapshot, emails, order, arrives, received);
          } else {
            PollAgrees(lower, env, m, emails, order, arrives, received);
          }
        }
    }

    /** The usage loop, round after round, with what goes on around it: traffic, restarts of the core, and the other
        loops at work.  In delta mode it is a run of `Meter`, in reset mode one of `ResetRead`; and what the panel has
        added up from the reports that arrived is in either case what those books say was delivered. */
    method StatsLoop(happenings: seq<Happening>, ghost m: Meter.Meter, ghost b: ResetRead.Books)
      returns (ghost events: seq<Meter.Event>, ghost rounds: seq<ResetRead.Round>, ghost sent: seq<Push>)
      requires m.server == b.server == stats.stats.Value() && m.snapshot == statsSnapshot
      requires m.delivered == map[] && b.delivered == map[]
      modifies this`statsSnapshot, this`pushes, stats.stats, state, xray.core
      ensures Meter.Legal(events) && SameRun(events, rounds) && Happened(events, happenings)
      ensures pushes == old(pushes) + sent
      ensures !stats.reset ==>
        var m' := Meter.MeterAfter(lower, Meter.Same, stats.stats.env, m, events);
        && stats.stats.Value() == m'.server && statsSnapshot == m'.snapshot
        && Agree(lower, m'.delivered, ReceivedAll(map[], sent))
      ensures stats.reset ==>
        var b' := ResetRead.BooksAfter(stats.stats.env, b, rounds);
        stats.stats.Value() == b'.server && Agree(lower, PanelBooks(b'.delivered), ReceivedAll(map[], sent))
    {
      hide Agree, PanelBooks, Meter.NextMeter, ResetRead.NextBooks, Meter.LegalEvent, Received, Did, SameEvent;
      events, rounds, sent := [], [], [];
      NothingDelivered(lower);
      for i := 0 to |happenings|
        invariant Meter.Legal(events) && SameRun(events, rounds) && Happened(events, happenings[..i])
        invariant pushes == old(pushes) + sent
        invariant !stats.reset ==>
          var m' := Meter.MeterAfter(lower, Meter.Same, stats.stats.env, m, events);
          && stats.stats.Value() == m'.server && statsSnapshot == m'.snapshot
          && Agree(lower, m'.delivered, ReceivedAll(map[], sent))
        invariant stats.reset ==>
          var b' := ResetRead.BooksAfter(stats.stats.env, b, rounds);
          stats.stats.Value() == b'.server && Agree(lower, PanelBooks(b'.delivered), ReceivedAll(map[], sent))
      {
        ghost var env := stats.stats.env;
        ghost var m1, b1 := Meter.MeterAfter(lower, Meter.Same, env, m, events), ResetRead.BooksAfter(env, b, rounds);
        ghost var event, round, more := Happen(happenings[i], m1, b1, ReceivedAll(map[], sent));
        MeterMore(lower, env, m, events, event);
        BooksMore(env, b, rounds, round);
        ReceivedAppend(map[], sent, more);
        events, rounds, sent := events + [event], rounds + [round], sent + more;
      }
      assert happenings[..|happenings|] == happenings;
    }

    method SortedEmails() returns (sorted: seq<string>)
      ensures StrictlySorted(sorted) && forall e :: e in sorted <==> e in state.clients
      ensures |sorted| == 0 <==> |state.clients| == 0
    {
      var unsorted := state.Emails();
      sorted := SortTags(set e | e in unsorted);
      assert |state.clients| == 0 <==> state.clients.Keys == {};
      HasMember(sorted);
    }

    method MakeReport(emails: seq<string>, deltas: map<string, Usage>) returns (report: seq<UserUsage>)
      ensures report == Report(lower, emails, deltas)
    {
      report := [];
      for i := 0 to |emails|
        invariant report + Report(lower, emails[i..], deltas) == Report(lower, emails, deltas)
      {
        assert emails[i..][1..] == emails[i + 1..];
        if emails[i] in deltas {
          var line := UserUsage(lower(emails[i]), deltas[emails[i]]);
          assert report + ([line] + Report(lower, emails[i + 1..], deltas))
              == (report + [line]) + Report(lower, emails[i + 1..], deltas);
          report := report + [line];
        }
      }
    }

    // ---------- commands ----------

    method RestartCore(answers: Answers) returns (ok: bool)
      modifies this`log, xray.core
      ensures ok == !answers.restartFails && log == old(log) + [Restarted(ok)]
      ensures Value() == RestartWorld(xray.core.env, old(Value()), answers)
    {
      ok := !answers.restartFails;
      if ok || answers.restartTook {
        xray.core.Restart();
      }
      log := log + [Restarted(ok)];
    }

    method PostAck(id: string, ack: Ack, answers: Answers) returns (err: Option<LoopError>)
      modifies this`log
      ensures log == old(log) + [Acked(id, ack)] && err == if answers.ackFails then Some(AckFailed(id)) else None
    {
      log := log + [Acked(id, ack)];
      return if answers.ackFails then Some(AckFailed(id)) else None;
    }

    /** One turn of the command loop. */
    method ExecuteNextCommand(fetched: NextCommand, answers: Answers, others: nat -> seq<Doing>)
      returns (err: Option<LoopError>, ghost between: nat -> seq<Step>)
      modifies this`log, state, xray.core
      ensures forall i :: Performs(between(i), others(i))
      ensures
        if fetched.Ready? then
          var run := Execute(xray.core.env, xray.tags, old(Value()), fetched.cmd, answers, between);
          && Value() == run.w && log == old(log) + run.log
          && err == if answers.ackFails then Some(AckFailed(fetched.cmd.id)) else None
        else
          Value() == old(Value()) && log == old(log) && err == if fetched.Unreachable? then Some(FetchFailed) else None
    {
      hide Resynchronize, ExecuteRestartAgent, ExecuteUpdateAgent, ExecuteUpdateCore, RestartWorld;
      between := (i: nat) => Undone(others(i));
      if fetched.Unreachable? {
        return Some(FetchFailed), between;
      }
      if fetched.Nothing? {
        return None, between;
      }
      var cmd := fetched.cmd;
      match cmd.kind {
        case RestartAgent => err := RestartAgentAndAck(cmd, answers, between);
        case UpdateAgent => err := UpdateAgentAndAck(cmd, answers, between);
        case UpdateCore => err, between := UpdateCoreAndAck(cmd, answers, others);
        case _ =>
          var problem;
          problem, between := ExecuteAgentCommand(cmd.kind, answers, others);
          var ack := FreshAck(cmd, answers);
          if problem.Some? {
            ack := ack.(status := Status.Failed, problem := problem);
          }
          err := PostAck(cmd.id, ack, answers);
      }
    }

    /** Where a handler, from `w` with log `before`, should have led: the whole run of the command, the
        acknowledgement included. */
    ghost predicate Ran(w: World, cmd: Command, answers: Answers, between: nat -> seq<Step>, before: seq<Action>,
                        err: Option<LoopError>)
      reads this, state, xray.core
    {
      var run := Execute(xray.core.env, xray.tags, w, cmd, answers, between);
      && Value() == run.w && log == before + run.log
      && err == if answers.ackFails then Some(AckFailed(cmd.id)) else None
    }

    /** The commands that only ever fill in status and error of their acknowledgement, which the caller posts. */
    method ExecuteAgentCommand(kind: Kind, answers: Answers, others: nat -> seq<Doing>)
      returns (problem: Option<Problem>, ghost between: nat -> seq<Step>)
      requires kind.RestartCore? || kind.Unknown?
      modifies this`log, state, xray.core
      ensures forall i :: Performs(between(i), others(i))
      ensures
        var w := old(Value());
        var w1 := RestartWorld(xray.core.env, w, answers);
        var r := ResyncAfterRestart(xray.core.env, xray.tags, w, kind, answers, between);
        var (w', actions, p) := AgentCommand(w, w1, r, kind, answers);
        Value() == w' && log == old(log) + actions && problem == p
    {
      hide Resynchronize;
      between := (i: nat) => Undone(others(i));
      if kind.Unknown? {
        return Some(UnsupportedCommand(kind.name)), between;
      }
      var restarted := RestartCore(answers);
      if !restarted {
        return Some(RestartFailed), between;
      }
      var err;
      err, between := SyncStateAfterCoreRestart(answers.panel, answers.cancelled, others);
      return if err.Some? then Some(SyncFailed(err.value)) else None, between;
    }

    method RestartAgentAndAck(cmd: Command, answers: Answers, ghost between: nat -> seq<Step>)
      returns (err: Option<LoopError>)
      requires cmd.kind.RestartAgent?
      modifies this`log
      ensures Ran(old(Value()), cmd, answers, between, old(log), err)
    {
      hide Resynchronize;
      var ack := FreshAck(cmd, answers);
      ack := ack.(result := ack.result.(mode := Some(RestartScheduled)));
      log := log + [Scheduled(!answers.scheduleFails)];
      if answers.scheduleFails {
        ack := ack.(status := Status.Failed, problem := Some(ScheduleFailed));
        ack := ack.(result := ack.result.(mode := Some(RestartScheduleFailed)));
      }
      err := PostAck(cmd.id, ack, answers);
    }

    method UpdateAgentAndAck(cmd: Command, answers: Answers, ghost between: nat -> seq<Step>)
      returns (err: Option<LoopError>)
      requires cmd.kind.UpdateAgent?
      modifies this`log
      ensures Ran(old(Value()), cmd, answers, between, old(log), err)
    {
      hide Resynchronize;
      var ack := FreshAck(cmd, answers);
      ack := ack.(result := ack.result.(mode := Some(UpdatePending)));
      if cmd.target == "" {
        ack := ack.(status := Status.Failed, problem := Some(TargetRequired));
        ack := ack.(result := ack.result.(mode := Some(InvalidPayload)));
        err := PostAck(cmd.id, ack, answers);
        return;
      }
      ack := ack.(result := ack.result.(target := Some(cmd.target)));
      log := log + [Installed(answers.install.Some?)];
      if answers.install.None? {
        ack := ack.(status := Status.Failed, problem := Some(InstallFailed));
        ack := ack.(result := ack.result.(mode := Some(UpdateFailed)));
        err := PostAck(cmd.id, ack, answers);
        return;
      }
      ack := ack.(result := ack.result.(install := answers.install));
      if !answers.install.value.updated {
        ack := ack.(result := ack.result.(mode := Some(AlreadyCurrent)));
        err := PostAck(cmd.id, ack, answers);
        return;
      }
      log := log + [Scheduled(!answers.scheduleFails)];
      if answers.scheduleFails {
        ack := ack.(status := Status.Failed, problem := Some(ScheduleFailed));
        ack := ack.(result := ack.result.(mode := Some(InstalledScheduleFailed)));
        err := PostAck(cmd.id, ack, answers);
        return;
      }
      ack := ack.(result := ack.result.(mode := Some(InstalledScheduled)));
      err := PostAck(cmd.id, ack, answers);
    }

    method UpdateCoreAndAck(cmd: Command, answers: Answers, others: nat -> seq<Doing>)
      returns (err: Option<LoopError>, ghost between: nat -> seq<Step>)
      requires cmd.kind.UpdateCore?
      modifies this`log, state, xray.core
      ensures forall i :: Performs(between(i), others(i))
      ensures Ran(old(Value()), cmd, answers, between, old(log), err)
    {
      hide Resynchronize, FinishUpdateCore, ResyncAfterRestart, RestartWorld;
      between := (i: nat) => Undone(others(i));
      var ack := FreshAck(cmd, answers);
      ack := ack.(result := ack.result.(mode := Some(UpdatePending)));
      if cmd.target == "" {
        ack := ack.(status := Status.Failed, problem := Some(TargetRequired));
        ack := ack.(result := ack.result.(mode := Some(InvalidPayload)));
        err := PostAck(cmd.id, ack, answers);
        return;
      }
      ack := ack.(result := ack.result.(target := Some(cmd.target)));
      log := log + [Installed(answers.install.Some?)];
      if answers.install.None? {
        ack := ack.(status := Status.Failed, problem := Some(InstallFailed));
        ack := ack.(result := ack.result.(mode := Some(UpdateFailed)));
        err := PostAck(cmd.id, ack, answers);
        return;
      }
      ack := ack.(result := ack.result.(install := answers.install));
      log := log + [Announced(CoreVersion(answers.install.value, cmd.target))];
      if !answers.install.value.updated {
        ack := ack.(result := ack.result.(mode := Some(AlreadyCurrent)));
        log := log + [Heartbeat];
        err := PostAck(cmd.id, ack, answers);
        return;
      }
      err, between := RestartUpdatedCore(cmd, answers, ack, others);
    }

    /** The rest of it, once a new core is installed. */
    method RestartUpdatedCore(cmd: Command, answers: Answers, installed: Ack, others: nat -> seq<Doing>)
      returns (err: Option<LoopError>, ghost between: nat -> seq<Step>)
      requires cmd.kind.UpdateCore?
      modifies this`log, state, xray.core
      ensures forall i :: Performs(between(i), others(i))
      ensures
        var w := old(Value());
        var r := ResyncAfterRestart(xray.core.env, xray.tags, w, cmd.kind, answers, between);
        var run := FinishUpdateCore(RestartWorld(xray.core.env, w, answers), r, cmd, answers, installed);
        && Value() == run.w && log == old(log) + run.log
        && err == if answers.ackFails then Some(AckFailed(cmd.id)) else None
    {
      hide Resynchronize;
      between := (i: nat) => Undone(others(i));
      var ack := installed;
      var restarted := RestartCore(answers);
      if !restarted {
        ack := ack.(status := Status.Failed, problem := Some(RestartFailed));
        ack := ack.(result := ack.result.(mode := Some(InstalledRestartFailed)));
        err := PostAck(cmd.id, ack, answers);
        return;
      }
      var syncErr;
      syncErr, between := SyncStateAfterCoreRestart(answers.panel, Never, others);
      if syncErr.Some? {
        ack := ack.(status := Status.Failed, problem := Some(SyncFailed(syncErr.value)));
        ack := ack.(result := ack.result.(mode := Some(InstalledSyncFailed)));
        err := PostAck(cmd.id, ack, answers);
        return;
      }
      log := log + [Heartbeat];
      ack := ack.(result := ack.result.(mode := Some(InstalledRestarted)));
      err := PostAck(cmd.id, ack, answers);
    }
  }
}
