/** What resets restore, what the agent remembers, and which disagreements it cannot repair. */
module Limits {
  import opened Model
  import opened Routes
  import opened Runtime
  import opened Diff
  import opened Apply
  import opened Batch
  import opened Drift
  import opened Reconciler
  import opened Runs

  // ---------- what the agent remembers ----------

  ghost predicate Applies(env: Env, tags: InboundTags, w: World, step: Step) {
    && step.Synchronize? && step.response.Some?
    && !TakesFastPath(w, step.assumeEmpty, step.response.value)
    && Sync(env, tags, w, step.assumeEmpty, step.response, step.userOrder, step.ruleOrder).1.None?
  }

  /** The response of the last synchronisation that did its work without an error. */
  ghost function LastApplied(env: Env, tags: InboundTags, w: World, steps: seq<Step>): Option<PanelState>
    decreases steps
  {
    if steps == [] then None
    else
      var later := LastApplied(env, tags, Next(env, tags, w, steps[0]), steps[1..]);
      if later.Some? then later
      else if Applies(env, tags, w, steps[0]) then steps[0].response else None
  }

  lemma FailureKeeps(env: Env, tags: InboundTags, w: World, step: Step)
    requires !Applies(env, tags, w, step)
    ensures var w1 := Next(env, tags, w, step);
      w1.clients == w.clients && w1.routes == w.routes && w1.version == w.version
  {
  }

  lemma SuccessReplaces(env: Env, tags: InboundTags, w: World, step: Step)
    requires Applies(env, tags, w, step)
    ensures var w1, ds := Next(env, tags, w, step), step.response.value;
      w1.version == ds.version && w1.clients == ByEmail(ds.clients) && w1.routes == ByTag(Normalize(ds.routes))
  {
  }

  /** Atomicity: the agent's version, clients and rules always come from one response, the last one whose
      application succeeded; failures never leave a mixture behind. */
  lemma {:induction false} MemoryIsOneResponse(env: Env, tags: InboundTags, w: World, steps: seq<Step>)
    ensures
      var w', applied := After(env, tags, w, steps), LastApplied(env, tags, w, steps);
      if applied.None? then w'.version == w.version && w'.clients == w.clients && w'.routes == w.routes
      else
        var ds := applied.value;
        && w'.version == ds.version
        && w'.clients == ByEmail(ds.clients)
        && w'.routes == ByTag(Normalize(ds.routes))
    decreases steps
  {
    if steps != [] {
      if Applies(env, tags, w, steps[0]) {
        SuccessReplaces(env, tags, w, steps[0]);
      } else {
        FailureKeeps(env, tags, w, steps[0]);
      }
      hide Next, Applies;
      MemoryIsOneResponse(env, tags, Next(env, tags, w, steps[0]), steps[1..]);
    }
  }

  // ---------- resets ----------

  /** The panel's account where it lists one, otherwise whatever the core served before. */
  function Overridden(tags: InboundTags, users: map<Key, Account>, desired: seq<Client>, k: Key): Option<Account> {
    if Expected(tags, ByEmail(desired), k).Some? then Expected(tags, ByEmail(desired), k) else Lookup(users, k)
  }

  lemma ResetUser(tags: InboundTags, desired: seq<Client>, k: Key)
    requires DistinctEmails(desired) && (k in PlannedKeys(tags, map[], desired) ==> k.tag != "")
    ensures StaleKeys(tags, map[], desired) == {}
    ensures LastPut(tags, desired, k).Some? ==> LastPut(tags, desired, k) == Expected(tags, ByEmail(desired), k)
    ensures LastPut(tags, desired, k).None? ==> Expected(tags, ByEmail(desired), k).None?
  {
    AllClientsMissing(desired);
    LastPutIsAnAdd(tags, desired, k);
    DistinctNotShadowed(tags, map[], desired);
    if k !in PlannedKeys(tags, map[], desired) {
      UnplannedKeepExpectation(tags, map[], desired, k);
    } else if LastPut(tags, desired, k).None? {
      RemovedNotExpected(tags, map[], desired, k);
    } else {
      assert k !in Shadowed(tags, map[], desired);
    }
  }

  lemma ResetAt(env: Env, tags: InboundTags, rt: Runtime, desired: seq<Client>, rules: seq<RouteRule>, k: Key)
    requires DistinctEmails(desired) && DistinctTags(rules)
    requires var s := State(env, tags, rt, UserOps(map[], desired, []), RuleOps(map[], rules, []));
      s.err.None? && Quiet(env, rt.clock, s.rt.clock)
    ensures var s := State(env, tags, rt, UserOps(map[], desired, []), RuleOps(map[], rules, []));
      && Lookup(s.rt.users, k) == Overridden(tags, rt.users, desired, k)
      && s.rt.rules == Without(rt.rules, Tags(rules)) + rules
  {
    DistinctIsNormal(rules);
    AllClientsMissing(desired);
    AllRulesMissing(rules);
    StateOk(env, tags, rt, map[], desired, [], map[], rules, [], k);
    ResetUser(tags, desired, k);
    assert PlannedTags(map[], rules) == Tags(rules);
  }

  /** A successful reset overrides whatever the core holds with the whole desired state: every other user
      survives, and the panel's rules end up last, in the panel's order. */
  lemma ResetExact(env: Env, tags: InboundTags, w: World, ds: PanelState)
    requires DistinctEmails(ds.clients)
    requires var (w', err) := Sync(env, tags, w, true, Some(ds), [], []);
      err.None? && Quiet(env, w.rt.clock, w'.rt.clock)
    ensures
      var w', rules := Sync(env, tags, w, true, Some(ds), [], []).0, Normalize(ds.routes);
      && (forall k :: Lookup(w'.rt.users, k) == Overridden(tags, w.rt.users, ds.clients, k))
      && w'.rt.rules == Without(w.rt.rules, Tags(rules)) + rules
  {
    var w', rules := Sync(env, tags, w, true, Some(ds), [], []).0, Normalize(ds.routes);
    ResetAt(env, tags, w.rt, ds.clients, rules, Key("", ""));
    forall k ensures Lookup(w'.rt.users, k) == Overridden(tags, w.rt.users, ds.clients, k) {
      ResetAt(env, tags, w.rt, ds.clients, rules, k);
    }
  }

  /** On an emptied core a successful reset restores full agreement, with exactly the panel's rule list. */
  lemma ResetFromEmpty(env: Env, tags: InboundTags, w: World, ds: PanelState)
    requires Consistent(tags, w) && DistinctEmails(ds.clients)
    requires w.rt.users == map[] && w.rt.rules == []
    requires var (w', err) := Sync(env, tags, w, true, Some(ds), [], []);
      err.None? && Quiet(env, w.rt.clock, w'.rt.clock)
    ensures var w' := Sync(env, tags, w, true, Some(ds), [], []).0;
      NoDrift(tags, w') && w'.rt.rules == Normalize(ds.routes)
  {
    var w' := Sync(env, tags, w, true, Some(ds), [], []).0;
    ResetExact(env, tags, w, ds);
    NormalizeKeepsMeaning(ds.routes);
    forall t ensures t !in Names(w') {
      RulesAtDistinct(Normalize(ds.routes), t);
      assert [] + Normalize(ds.routes) == Normalize(ds.routes);
    }
    forall k ensures k !in Keys(tags, w') {
      assert Lookup(w.rt.users, k) == None;
    }
  }

  // ---------- users left behind ----------

  /** A user the core serves although the agent remembers nobody under that key. */
  predicate Stray(tags: InboundTags, w: World, k: Key) {
    k in w.rt.users && Expected(tags, w.clients, k).None?
  }

  predicate Lists(tags: InboundTags, step: Step, k: Key) {
    step.Synchronize? && step.response.Some? && k in KeysOf(tags, step.response.value.clients)
  }

  lemma StrayUnplanned(tags: InboundTags, w: World, assumeEmpty: bool, desired: seq<Client>, k: Key)
    requires Consistent(tags, w) && Expected(tags, w.clients, k).None? && k !in KeysOf(tags, desired)
    ensures k !in PlannedKeys(tags, Clients(w, assumeEmpty), desired)
    ensures Expected(tags, ByEmail(desired), k).None?
  {
    var current := Clients(w, assumeEmpty);
    ClientAddsAre(current, desired);
    forall c | c in ClientAdds(current, desired) ensures KeyOf(tags, c) != k {}
    forall e | e in StaleEmails(current, desired) ensures KeyOf(tags, current[e]) != k {}
    hide ClientAdds, StaleEmails, Expected;
    UnplannedKeepExpectation(tags, current, desired, k);
  }

  lemma StrayStep(env: Env, tags: InboundTags, w: World, step: Step, k: Key)
    requires Consistent(tags, w) && Legal(w, step) && step.Synchronize? && !Lists(tags, step, k)
    requires Quiet(env, w.rt.clock, Next(env, tags, w, step).rt.clock) && Stray(tags, w, k)
    ensures var w' := Next(env, tags, w, step); Stray(tags, w', k) && w'.rt.users[k] == w.rt.users[k]
  {
    var Synchronize(assumeEmpty, response, userOrder, ruleOrder) := step;
    if response.Some? && !TakesFastPath(w, assumeEmpty, response.value) {
      var ds := response.value;
      StrayUnplanned(tags, w, assumeEmpty, ds.clients, k);
      SyncFrame(env, tags, w, assumeEmpty, ds, userOrder, ruleOrder);
      assert Lookup(Next(env, tags, w, step).rt.users, k) == Lookup(w.rt.users, k);
    }
  }

  /** A stray user is served unchanged, through successes, failures and resets alike, for as long as no
      response lists that inbound and address again and the core is not restarted. */
  lemma {:induction false} StraysPersist(env: Env, tags: InboundTags, w: World, steps: seq<Step>, k: Key)
    requires Consistent(tags, w) && LegalRun(env, tags, w, steps) && Stray(tags, w, k)
    requires forall i | 0 <= i < |steps| :: steps[i].Synchronize? && !Lists(tags, steps[i], k)
    requires Quiet(env, w.rt.clock, After(env, tags, w, steps).rt.clock)
    ensures var w' := After(env, tags, w, steps); Stray(tags, w', k) && w'.rt.users[k] == w.rt.users[k]
    decreases steps
  {
    if steps != [] {
      var step := steps[0];
      assert step.Synchronize?;
      StrayStep(env, tags, w, step, k);
      SyncConsistent(env, tags, w, step.assumeEmpty, step.response, step.userOrder, step.ruleOrder);
      StraysPersist(env, tags, Next(env, tags, w, step), steps[1..], k);
    }
  }

  // ---------- resets that never succeed ----------

  lemma {:induction false} AfterAll(env: Env, tags: InboundTags, w: World, xs: seq<Step>, ys: seq<Step>)
    ensures After(env, tags, w, xs + ys) == After(env, tags, After(env, tags, w, xs), ys)
    decreases xs
  {
    if xs == [] {
      assert xs + ys == ys;
    } else {
      assert (xs + ys)[1..] == xs[1..] + ys;
      AfterAll(env, tags, Next(env, tags, w, xs[0]), xs[1..], ys);
    }
  }

  lemma {:induction false} RetriesIdle(env: Env, tags: InboundTags, w: World, ds: PanelState, retries: seq<Step>)
    requires TakesFastPath(w, false, ds)
    requires forall i | 0 <= i < |retries| :: IsRetry(retries[i], ds)
    ensures After(env, tags, w, retries) == w
    decreases retries
  {
    if retries != [] {
      assert IsRetry(retries[0], ds);
      RetriesIdle(env, tags, w, ds, retries[1..]);
    }
  }

  /** Once an up-to-date agent has seen its core restart and all its resets fail, ordinary synchronisation
      never touches the core again while the panel's response stays the same: the damage is permanent. */
  lemma FailedResetsStick(env: Env, tags: InboundTags, w: World, ds: PanelState,
                          trouble: seq<Step>, retries: seq<Step>)
    requires TakesFastPath(w, false, ds)
    requires LastApplied(env, tags, w, trouble).None?
    requires forall i | 0 <= i < |retries| :: IsRetry(retries[i], ds)
    ensures After(env, tags, w, trouble + retries) == After(env, tags, w, trouble)
  {
    MemoryIsOneResponse(env, tags, w, trouble);
    AfterAll(env, tags, w, trouble, retries);
    RetriesIdle(env, tags, After(env, tags, w, trouble), ds, retries);
  }

  /** The lists of a response are those the agent remembers; its version may be new. */
  ghost predicate SameLists(w: World, ds: PanelState) {
    DistinctEmails(ds.clients) && ByEmail(ds.clients) == w.clients && ByTag(Normalize(ds.routes)) == w.routes
  }

  /** A new version with unchanged lists issues no call: only the remembered version moves. */
  lemma SameListsNoCall(env: Env, tags: InboundTags, w: World, ds: PanelState,
                        userOrder: seq<string>, ruleOrder: seq<string>)
    requires SameLists(w, ds) && LegalSync(w, false, Some(ds), userOrder, ruleOrder)
    ensures Sync(env, tags, w, false, Some(ds), userOrder, ruleOrder) == (w.(version := ds.version), None)
  {
    if !TakesFastPath(w, false, ds) {
      ClientDiffSettles(w.clients, ds.clients);
      NormalizeFixpoints(ds.routes);
      NormalizeKeepsMeaning(ds.routes);
      RouteDiffSettles(ds.routes);
      NothingToDo(w, ds, userOrder, ruleOrder);
      assert State(env, tags, w.rt, [], []) == Applied(w.rt, false, None);
    }
  }

  ghost predicate IsResend(step: Step, w: World) {
    step.Synchronize? && !step.assumeEmpty && (step.response.Some? ==> SameLists(w, step.response.value))
  }

  lemma {:induction false} ResendsIdle(env: Env, tags: InboundTags, w: World, resends: seq<Step>)
    requires LegalRun(env, tags, w, resends) && forall i | 0 <= i < |resends| :: IsResend(resends[i], w)
    ensures var w' := After(env, tags, w, resends);
      w'.rt == w.rt && w'.clients == w.clients && w'.routes == w.routes
    decreases resends
  {
    if resends != [] {
      var step := resends[0];
      assert IsResend(step, w);
      if step.response.Some? {
        SameListsNoCall(env, tags, w, step.response.value, step.userOrder, step.ruleOrder);
      }
      hide Sync, SameLists;
      var w1 := Next(env, tags, w, step);
      forall i | 0 <= i < |resends[1..]| ensures IsResend(resends[1..][i], w1) {
        assert IsResend(resends[i + 1], w);
        SameMemory(resends[i + 1], w, w1);
      }
      ResendsIdle(env, tags, w1, resends[1..]);
    }
  }

  lemma SameMemory(step: Step, w: World, w': World)
    requires w'.clients == w.clients && w'.routes == w.routes
    ensures IsResend(step, w') <==> IsResend(step, w)
  {
  }

  /** Nor do new versions help: as long as the lists stay what the agent remembers from before the trouble, no
      response makes it touch the core. */
  lemma NewVersionsStick(env: Env, tags: InboundTags, w: World, trouble: seq<Step>, resends: seq<Step>)
    requires LastApplied(env, tags, w, trouble).None?
    requires LegalRun(env, tags, After(env, tags, w, trouble), resends)
    requires forall i | 0 <= i < |resends| :: IsResend(resends[i], w)
    ensures After(env, tags, w, trouble + resends).rt == After(env, tags, w, trouble).rt
  {
    var w1 := After(env, tags, w, trouble);
    MemoryIsOneResponse(env, tags, w, trouble);
    AfterAll(env, tags, w, trouble, resends);
    forall i | 0 <= i < |resends| ensures IsResend(resends[i], w1) {
      SameMemory(resends[i], w, w1);
    }
    ResendsIdle(env, tags, w1, resends);
  }

  // ---------- removals that can never succeed ----------

  /** From some call on, the core always says so when it is asked to remove what it does not have. */
  ghost predicate Strict(env: Env, from: nat) {
    forall i: nat | from <= i :: EventAt(env, i).fate.Answered? ==> EventAt(env, i).fate.reportMissing
  }

  ghost predicate NeverRestarts(env: Env, from: nat) {
    forall i: nat | from <= i :: !EventAt(env, i).restart
  }

  /** Nothing outside the agent's calls can bring this user, or this rule, into the core. */
  ghost predicate UserStaysAway(env: Env, k: Key, from: nat) {
    k !in env.bootUsers || NeverRestarts(env, from)
  }

  ghost predicate RuleStaysAway(env: Env, tag: string, from: nat) {
    tag !in Tags(env.bootRules) || NeverRestarts(env, from)
  }

  lemma DropMissing(env: Env, tags: InboundTags, rt: Runtime, head: Client, k: Key, from: nat)
    requires Strict(env, from) && from <= rt.clock && k !in rt.users && UserStaysAway(env, k, from)
    ensures var (rt1, err) := Exec(env, tags, rt, DropUser(head));
      k !in rt1.users && (err.None? ==> KeyOf(tags, head) != k)
  {
  }

  lemma {:induction false} DropsBlocked(env: Env, tags: InboundTags, rt: Runtime, removes: seq<Client>,
                                        rest: seq<Op>, c: Client, from: nat)
    requires Strict(env, from) && from <= rt.clock && c in removes
    requires KeyOf(tags, c) !in rt.users && UserStaysAway(env, KeyOf(tags, c), from)
    ensures var (rt', err) := RunOps(env, tags, rt, DropUsers(removes) + rest);
      err.Some? && KeyOf(tags, c) !in rt'.users
    decreases removes
  {
    var ops, head := DropUsers(removes) + rest, removes[0];
    assert ops == [DropUser(head)] + (DropUsers(removes[1..]) + rest);
    assert removes == [head] + removes[1..];
    RunStep(env, tags, rt, DropUser(head), DropUsers(removes[1..]) + rest);
    DropMissing(env, tags, rt, head, KeyOf(tags, c), from);
    var (rt1, err) := Exec(env, tags, rt, DropUser(head));
    hide Exec, RunOps, UserStaysAway, Strict;
    if err.None? {
      assert head != c;
      DropsBlocked(env, tags, rt1, removes[1..], rest, c, from);
    }
  }

  lemma DropRuleMissing(env: Env, tags: InboundTags, rt: Runtime, head: RouteRule, tag: string, from: nat)
    requires Strict(env, from) && from <= rt.clock && tag !in Tags(rt.rules) && RuleStaysAway(env, tag, from)
    ensures var (rt1, err) := Exec(env, tags, rt, DropRule(head));
      tag !in Tags(rt1.rules) && (err.None? ==> head.tag != tag)
  {
    TagsWithout(rt.rules, {head.tag});
    TagsWithout(env.bootRules, {head.tag});
    hide Tags, Without;
  }

  lemma {:induction false} RuleDropsBlocked(env: Env, tags: InboundTags, rt: Runtime, removes: seq<RouteRule>,
                                            rest: seq<Op>, r: RouteRule, from: nat)
    requires Strict(env, from) && from <= rt.clock && r in removes
    requires r.tag !in Tags(rt.rules) && RuleStaysAway(env, r.tag, from)
    ensures var (rt', err) := RunOps(env, tags, rt, DropRules(removes) + rest);
      err.Some? && r.tag !in Tags(rt'.rules)
    decreases removes
  {
    var ops, head := DropRules(removes) + rest, removes[0];
    assert ops == [DropRule(head)] + (DropRules(removes[1..]) + rest);
    assert removes == [head] + removes[1..];
    RunStep(env, tags, rt, DropRule(head), DropRules(removes[1..]) + rest);
    DropRuleMissing(env, tags, rt, head, r.tag, from);
    var (rt1, err) := Exec(env, tags, rt, DropRule(head));
    hide Exec, RunOps, RuleStaysAway, Strict, Tags;
    if err.None? {
      assert head != r;
      RuleDropsBlocked(env, tags, rt1, removes[1..], rest, r, from);
    }
  }

  /** Calls about users leave the rules alone, unless the core restarts. */
  lemma {:induction false} UserOpsKeepRules(env: Env, tags: InboundTags, rt: Runtime, ops: seq<Op>)
    requires forall op | op in ops :: op.DropUser? || op.PutUser?
    ensures RunOps(env, tags, rt, ops).0.rules == Base(env, rt, RunOps(env, tags, rt, ops).0.clock).rules
    decreases ops
  {
    if ops != [] {
      UserOpKeepsRules(env, tags, rt, ops[0]);
      hide Exec;
      UserOpsKeepRules(env, tags, Exec(env, tags, rt, ops[0]).0, ops[1..]);
    }
  }

  lemma UserOpKeepsRules(env: Env, tags: InboundTags, rt: Runtime, op: Op)
    requires op.DropUser? || op.PutUser?
    ensures Exec(env, tags, rt, op).0.rules == Base(env, rt, Exec(env, tags, rt, op).0.clock).rules
  {
  }

  /** A restart, or an ordinary synchronisation whose response, if any, removes or changes this client. */
  ghost predicate Drops(step: Step, clients: map<string, Client>, email: string) {
    step.Restart?
    || (!step.assumeEmpty && (step.response.None? || email in StaleEmails(clients, step.response.value.clients)))
  }

  ghost predicate DropsRule(step: Step, routes: map<string, RouteRule>, tag: string) {
    step.Restart?
    || (!step.assumeEmpty && (step.response.None? || tag in StaleTags(routes, Normalize(step.response.value.routes))))
  }

  lemma SyncBlocked(env: Env, tags: InboundTags, w: World, ds: PanelState, email: string,
                    userOrder: seq<string>, ruleOrder: seq<string>)
    requires email in StaleEmails(w.clients, ds.clients) && LegalOrders(w, false, ds, userOrder, ruleOrder)
    requires
      var k := KeyOf(tags, w.clients[email]);
      Strict(env, w.rt.clock) && k !in w.rt.users && UserStaysAway(env, k, w.rt.clock)
    ensures var (w', err) := SlowSync(env, tags, w, false, ds, userOrder, ruleOrder);
      err.Some? && KeyOf(tags, w.clients[email]) !in w'.rt.users
  {
    var c, removes, rt1 := w.clients[email], Values(w.clients, userOrder), Attempt(env, w.rt).0;
    ValuesAre(w.clients, userOrder);
    assert email in userOrder && c in removes;
    assert removes != [] && UserOps(w.clients, ds.clients, userOrder) != [];
    assert KeyOf(tags, c) !in rt1.users && rt1.clock >= w.rt.clock;
    hide RunOps, RuleOps, StaleEmails, DropUsers, PutUsers;
    DropsBlocked(env, tags, rt1, removes, PutUsers(ClientAdds(w.clients, ds.clients)), c, w.rt.clock);
  }

  lemma Later(env: Env, k: Key, tag: string, from: nat, later: nat)
    requires from <= later
    ensures Strict(env, from) ==> Strict(env, later)
    ensures UserStaysAway(env, k, from) ==> UserStaysAway(env, k, later)
    ensures RuleStaysAway(env, tag, from) ==> RuleStaysAway(env, tag, later)
  {
  }

  /** The removal loop, unlike the one that adds rules, does not tolerate "not found".  So if a remembered client
      is gone from the core, then no ordinary response that drops or changes it can ever be applied, whatever else
      it says and however responses vary: the memory stays as it is. */
  lemma {:induction false} RemovalLivelock(env: Env, tags: InboundTags, w: World, email: string, steps: seq<Step>)
    requires LegalRun(env, tags, w, steps) && email in w.clients
    requires forall i | 0 <= i < |steps| :: Drops(steps[i], w.clients, email)
    requires var k := KeyOf(tags, w.clients[email]);
      && Strict(env, w.rt.clock) && k !in w.rt.users && UserStaysAway(env, k, w.rt.clock)
      && (k in env.bootUsers ==> forall i | 0 <= i < |steps| :: steps[i].Synchronize?)
    ensures LastApplied(env, tags, w, steps).None?
    ensures var w' := After(env, tags, w, steps);
      && w'.version == w.version && w'.clients == w.clients && w'.routes == w.routes
      && KeyOf(tags, w.clients[email]) !in w'.rt.users
    decreases steps
  {
    if steps != [] {
      var step, k := steps[0], KeyOf(tags, w.clients[email]);
      var w1 := Next(env, tags, w, step);
      assert Drops(step, w.clients, email);
      if step.Synchronize? && step.response.Some? && !TakesFastPath(w, false, step.response.value) {
        SyncBlocked(env, tags, w, step.response.value, email, step.userOrder, step.ruleOrder);
      }
      hide SlowSync, Drops, Strict, UserStaysAway;
      FailureKeeps(env, tags, w, step);
      Later(env, k, "", w.rt.clock, w1.rt.clock);
      RemovalLivelock(env, tags, w1, email, steps[1..]);
    }
  }

  lemma RuleSyncBlocked(env: Env, tags: InboundTags, w: World, ds: PanelState, tag: string,
                        userOrder: seq<string>, ruleOrder: seq<string>)
    requires Strict(env, w.rt.clock) && KeyedByTag(w.routes) && LegalOrders(w, false, ds, userOrder, ruleOrder)
    requires tag in StaleTags(w.routes, Normalize(ds.routes)) && tag !in Tags(w.rt.rules)
    requires RuleStaysAway(env, tag, w.rt.clock)
    ensures var (w', err) := SlowSync(env, tags, w, false, ds, userOrder, ruleOrder);
      err.Some? && tag !in Tags(w'.rt.rules)
  {
    NormalizeFixpoints(ds.routes);
    UserPhaseKeepsAway(env, tags, w, ds.clients, userOrder, tag);
    var a := ApplyOps(env, tags, w.rt, UserOps(w.clients, ds.clients, userOrder));
    hide ApplyOps, UserOps, RuleOps, Normalize;
    RuleOpsBlocked(env, tags, a.rt, w.routes, Normalize(ds.routes), ruleOrder, tag, w.rt.clock);
  }

  lemma UserPhaseKeepsAway(env: Env, tags: InboundTags, w: World, desired: seq<Client>, order: seq<string>, tag: string)
    requires tag !in Tags(w.rt.rules) && RuleStaysAway(env, tag, w.rt.clock)
    ensures tag !in Tags(ApplyOps(env, tags, w.rt, UserOps(w.clients, desired, order)).rt.rules)
  {
    FootprintOfClients(tags, Values(w.clients, order));
    FootprintOfClients(tags, ClientAdds(w.clients, desired));
    UserOpsKeepRules(env, tags, Attempt(env, w.rt).0, UserOps(w.clients, desired, order));
    hide RunOps, UserOps, Tags;
  }

  lemma RuleOpsBlocked(env: Env, tags: InboundTags, rt: Runtime, routes: map<string, RouteRule>, rules: seq<RouteRule>,
                       order: seq<string>, tag: string, from: nat)
    requires Strict(env, from) && from <= rt.clock && KeyedByTag(routes) && Normalize(rules) == rules
    requires tag in StaleTags(routes, rules) && IsOrderOf(order, StaleTags(routes, rules))
    requires tag !in Tags(rt.rules) && RuleStaysAway(env, tag, from)
    ensures var a := ApplyOps(env, tags, rt, RuleOps(routes, rules, order)); a.err.Some? && tag !in Tags(a.rt.rules)
  {
    var removes := Values(routes, order);
    ValuesAre(routes, order);
    assert tag in order && routes[tag] in removes;
    assert removes != [] ==> DropRules(removes) != [];
    hide Tags, RunOps;
    var rt1 := Attempt(env, rt).0;
    assert tag !in Tags(rt1.rules);
    RuleDropsBlocked(env, tags, rt1, removes, PutRules(RouteAdds(routes, rules)), routes[tag], from);
  }

  /** The same for rules: a remembered rule that is gone from the core blocks every later response that drops or
      changes it. */
  lemma {:induction false} RuleRemovalLivelock(env: Env, tags: InboundTags, w: World, tag: string, steps: seq<Step>)
    requires KeyedByTag(w.routes) && LegalRun(env, tags, w, steps)
    requires forall i | 0 <= i < |steps| :: DropsRule(steps[i], w.routes, tag)
    requires Strict(env, w.rt.clock) && tag !in Tags(w.rt.rules) && RuleStaysAway(env, tag, w.rt.clock)
    requires tag in Tags(env.bootRules) ==> forall i | 0 <= i < |steps| :: steps[i].Synchronize?
    ensures LastApplied(env, tags, w, steps).None?
    ensures var w' := After(env, tags, w, steps);
      && w'.version == w.version && w'.clients == w.clients && w'.routes == w.routes
      && tag !in Tags(w'.rt.rules)
    decreases steps
  {
    if steps != [] {
      var step := steps[0];
      var w1 := Next(env, tags, w, step);
      assert DropsRule(step, w.routes, tag);
      if step.Synchronize? && step.response.Some? && !TakesFastPath(w, false, step.response.value) {
        RuleSyncBlocked(env, tags, w, step.response.value, tag, step.userOrder, step.ruleOrder);
      }
      hide SlowSync, DropsRule, Strict, RuleStaysAway, Tags;
      FailureKeeps(env, tags, w, step);
      Later(env, Key("", ""), tag, w.rt.clock, w1.rt.clock);
      RuleRemovalLivelock(env, tags, w1, tag, steps[1..]);
    }
  }
}
