/** When a synchronisation succeeds: the exact condition under a core that answers every call. */
module Progress {
  import opened Model
  import opened Routes
  import opened Runtime
  import opened Diff
  import opened Apply
  import opened Batch
  import opened Reconciler
  import opened Runs
  import opened Limits

  /** From some call on, every call is answered and the core does not restart.  A strict core reports the removal of
      what it does not have as "not found"; a lenient one says nothing. */
  ghost predicate Steady(env: Env, strict: bool, from: nat) {
    forall i: nat | from <= i :: EventAt(env, i) == Event(false, Answered(strict))
  }

  lemma SteadyLater(env: Env, strict: bool, from: nat, later: nat)
    requires Steady(env, strict, from) && from <= later
    ensures Steady(env, strict, later)
  {
  }

  // ---------- users ----------

  lemma PutUserIff(env: Env, tags: InboundTags, rt: Runtime, c: Client, strict: bool)
    requires Steady(env, strict, rt.clock)
    ensures Exec(env, tags, rt, PutUser(c)).1.None? <==> ValidClient(tags, c)
  {
  }

  lemma DropUserIff(env: Env, tags: InboundTags, rt: Runtime, c: Client, strict: bool)
    requires Steady(env, strict, rt.clock)
    ensures var (rt', err) := Exec(env, tags, rt, DropUser(c));
      && (err.None? <==> ValidClient(tags, c) && (strict ==> KeyOf(tags, c) in rt.users))
      && (err.None? ==> rt'.users == rt.users - {KeyOf(tags, c)})
  {
  }

  lemma {:induction false} PutUsersIff(env: Env, tags: InboundTags, rt: Runtime, adds: seq<Client>, strict: bool)
    requires Steady(env, strict, rt.clock)
    ensures RunOps(env, tags, rt, PutUsers(adds)).1.None? <==> forall c | c in adds :: ValidClient(tags, c)
    decreases adds
  {
    if adds != [] {
      var op, rest := PutUser(adds[0]), PutUsers(adds[1..]);
      assert adds == [adds[0]] + adds[1..] && PutUsers(adds) == [op] + rest;
      PutUserIff(env, tags, rt, adds[0], strict);
      RunStep(env, tags, rt, op, rest);
      SteadyLater(env, strict, rt.clock, Exec(env, tags, rt, op).0.clock);
      hide Exec, ValidClient, Steady;
      PutUsersIff(env, tags, Exec(env, tags, rt, op).0, adds[1..], strict);
    }
  }

  ghost predicate CanDrop(tags: InboundTags, strict: bool, users: map<Key, Account>, c: Client) {
    ValidClient(tags, c) && (strict ==> KeyOf(tags, c) in users)
  }

  ghost predicate DistinctKeys(tags: InboundTags, cs: seq<Client>) {
    forall i, j | 0 <= i < j < |cs| :: KeyOf(tags, cs[i]) != KeyOf(tags, cs[j])
  }

  lemma DistinctKeysTail(tags: InboundTags, cs: seq<Client>)
    requires cs != [] && DistinctKeys(tags, cs)
    ensures DistinctKeys(tags, cs[1..])
    ensures forall c | c in cs[1..] :: KeyOf(tags, c) != KeyOf(tags, cs[0])
    ensures forall c :: c in cs <==> c == cs[0] || c in cs[1..]
  {
    assert cs == [cs[0]] + cs[1..];
    forall c | c in cs[1..] ensures KeyOf(tags, c) != KeyOf(tags, cs[0]) {
      var j :| 0 <= j < |cs[1..]| && cs[1..][j] == c;
      assert cs[j + 1] == c;
    }
  }

  lemma {:induction false} UserBatchIff(env: Env, tags: InboundTags, rt: Runtime, removes: seq<Client>,
                                        adds: seq<Client>, strict: bool)
    requires Steady(env, strict, rt.clock) && DistinctKeys(tags, removes)
    ensures RunOps(env, tags, rt, DropUsers(removes) + PutUsers(adds)).1.None?
       <==> (forall c | c in removes :: CanDrop(tags, strict, rt.users, c))
            && (forall c | c in adds :: ValidClient(tags, c))
    decreases removes
  {
    if removes == [] {
      assert DropUsers(removes) + PutUsers(adds) == PutUsers(adds);
      PutUsersIff(env, tags, rt, adds, strict);
    } else {
      var head, tail := removes[0], removes[1..];
      var rest := DropUsers(tail) + PutUsers(adds);
      assert DropUsers(removes) + PutUsers(adds) == [DropUser(head)] + rest;
      DistinctKeysTail(tags, removes);
      DropUserIff(env, tags, rt, head, strict);
      RunStep(env, tags, rt, DropUser(head), rest);
      var (rt1, err) := Exec(env, tags, rt, DropUser(head));
      SteadyLater(env, strict, rt.clock, rt1.clock);
      hide Exec, Steady, DistinctKeys, KeyOf, ValidClient, DropUsers, PutUsers, RunOps;
      if err.None? {
        UserBatchIff(env, tags, rt1, tail, adds, strict);
        assert forall c | c in tail :: CanDrop(tags, strict, rt1.users, c) <==> CanDrop(tags, strict, rt.users, c);
      }
    }
  }

  // ---------- rules ----------

  lemma PutRuleIff(env: Env, tags: InboundTags, rt: Runtime, r: RouteRule, strict: bool)
    requires Steady(env, strict, rt.clock)
    ensures Exec(env, tags, rt, PutRule(r)).1.None? <==> ValidRoute(r)
  {
    hide Without, Tags;
  }

  lemma DropRuleIff(env: Env, tags: InboundTags, rt: Runtime, r: RouteRule, strict: bool)
    requires Steady(env, strict, rt.clock)
    ensures var (rt', err) := Exec(env, tags, rt, DropRule(r));
      && (err.None? <==> r.tag != "" && (strict ==> r.tag in Tags(rt.rules)))
      && (err.None? ==> Tags(rt'.rules) == Tags(rt.rules) - {r.tag})
  {
    TagsWithout(rt.rules, {r.tag});
  }

  lemma {:induction false} PutRulesIff(env: Env, tags: InboundTags, rt: Runtime, adds: seq<RouteRule>, strict: bool)
    requires Steady(env, strict, rt.clock)
    ensures RunOps(env, tags, rt, PutRules(adds)).1.None? <==> forall r | r in adds :: ValidRoute(r)
    decreases adds
  {
    if adds != [] {
      var op, rest := PutRule(adds[0]), PutRules(adds[1..]);
      assert adds == [adds[0]] + adds[1..] && PutRules(adds) == [op] + rest;
      PutRuleIff(env, tags, rt, adds[0], strict);
      RunStep(env, tags, rt, op, rest);
      SteadyLater(env, strict, rt.clock, Exec(env, tags, rt, op).0.clock);
      hide Exec, ValidRoute, Steady;
      PutRulesIff(env, tags, Exec(env, tags, rt, op).0, adds[1..], strict);
    }
  }

  ghost predicate CanDropRule(strict: bool, held: set<string>, r: RouteRule) {
    r.tag != "" && (strict ==> r.tag in held)
  }

  lemma DistinctTagsTail(rs: seq<RouteRule>)
    requires rs != [] && DistinctTags(rs)
    ensures DistinctTags(rs[1..])
    ensures forall r | r in rs[1..] :: r.tag != rs[0].tag
    ensures forall r :: r in rs <==> r == rs[0] || r in rs[1..]
  {
    assert rs == [rs[0]] + rs[1..];
    forall r | r in rs[1..] ensures r.tag != rs[0].tag {
      var j :| 0 <= j < |rs[1..]| && rs[1..][j] == r;
      assert rs[j + 1] == r;
    }
  }

  lemma {:induction false} RuleBatchIff(env: Env, tags: InboundTags, rt: Runtime, removes: seq<RouteRule>,
                                        adds: seq<RouteRule>, strict: bool)
    requires Steady(env, strict, rt.clock) && DistinctTags(removes)
    ensures RunOps(env, tags, rt, DropRules(removes) + PutRules(adds)).1.None?
       <==> (forall r | r in removes :: CanDropRule(strict, Tags(rt.rules), r))
            && (forall r | r in adds :: ValidRoute(r))
    decreases removes
  {
    if removes == [] {
      assert DropRules(removes) + PutRules(adds) == PutRules(adds);
      PutRulesIff(env, tags, rt, adds, strict);
    } else {
      var head, tail := removes[0], removes[1..];
      var rest := DropRules(tail) + PutRules(adds);
      assert DropRules(removes) + PutRules(adds) == [DropRule(head)] + rest;
      DistinctTagsTail(removes);
      DropRuleIff(env, tags, rt, head, strict);
      RunStep(env, tags, rt, DropRule(head), rest);
      var (rt1, err) := Exec(env, tags, rt, DropRule(head));
      SteadyLater(env, strict, rt.clock, rt1.clock);
      hide Exec, Steady, DistinctTags, Tags, ValidRoute, DropRules, PutRules, RunOps;
      if err.None? {
        RuleBatchIff(env, tags, rt1, tail, adds, strict);
        assert forall r | r in tail ::
            CanDropRule(strict, Tags(rt1.rules), r) <==> CanDropRule(strict, Tags(rt.rules), r);
      }
    }
  }

  // ---------- one synchronisation ----------

  /** Each value of a map in a given order, where the order repeats no key. */
  lemma {:induction false} ValuesAt<V>(m: map<string, V>, order: seq<string>, i: nat)
    requires (forall k | k in order :: k in m) && i < |order|
    ensures |Values(m, order)| == |order| && Values(m, order)[i] == m[order[i]]
  {
    assert order == [order[0]] + order[1..];
    if |order| > 1 {
      ValuesAt(m, order[1..], if i > 0 then i - 1 else 0);
    }
  }

  lemma StaleDistinct(tags: InboundTags, current: map<string, Client>, order: seq<string>, s: set<string>)
    requires KeyedByEmail(current) && IsOrderOf(order, s) && s <= current.Keys
    ensures DistinctKeys(tags, Values(current, order))
  {
    var values := Values(current, order);
    if order != [] {
      ValuesAt(current, order, 0);
    }
    forall i, j | 0 <= i < j < |values| ensures KeyOf(tags, values[i]) != KeyOf(tags, values[j]) {
      ValuesAt(current, order, i);
      ValuesAt(current, order, j);
    }
  }

  lemma StaleTagsDistinct(current: map<string, RouteRule>, order: seq<string>, s: set<string>)
    requires KeyedByTag(current) && IsOrderOf(order, s) && s <= current.Keys
    ensures DistinctTags(Values(current, order))
  {
    var values := Values(current, order);
    if order != [] {
      ValuesAt(current, order, 0);
    }
    forall i, j | 0 <= i < j < |values| ensures values[i].tag != values[j].tag {
      ValuesAt(current, order, i);
      ValuesAt(current, order, j);
    }
  }

  /** Every entry to add passes the local checks, and a strict core still has every entry to remove. */
  ghost predicate UsersApplicable(tags: InboundTags, strict: bool, rt: Runtime, current: map<string, Client>,
                                  desired: seq<Client>) {
    && (forall c | c in ClientAdds(current, desired) :: ValidClient(tags, c))
    && (forall e | e in StaleEmails(current, desired) :: CanDrop(tags, strict, rt.users, current[e]))
  }

  ghost predicate RulesApplicable(strict: bool, rt: Runtime, current: map<string, RouteRule>, desired: seq<RouteRule>) {
    && (forall r | r in RouteAdds(current, desired) :: ValidRoute(r))
    && (forall t | t in StaleTags(current, desired) :: CanDropRule(strict, Tags(rt.rules), current[t]))
  }

  lemma SteadyAttempt(env: Env, tags: InboundTags, rt: Runtime, ops: seq<Op>, strict: bool)
    requires Steady(env, strict, rt.clock)
    ensures ApplyOps(env, tags, rt, ops).err == RunOps(env, tags, rt.(clock := rt.clock + 1), ops).1
  {
  }

  lemma ApplyUsersIff(env: Env, tags: InboundTags, rt: Runtime, current: map<string, Client>, desired: seq<Client>,
                      order: seq<string>, strict: bool)
    requires Steady(env, strict, rt.clock) && KeyedByEmail(current) && IsOrderOf(order, StaleEmails(current, desired))
    ensures ApplyOps(env, tags, rt, UserOps(current, desired, order)).err.None?
       <==> UsersApplicable(tags, strict, rt, current, desired)
  {
    var removes, adds := Values(current, order), ClientAdds(current, desired);
    StaleDistinct(tags, current, order, StaleEmails(current, desired));
    ValuesAre(current, order);
    assert (forall c | c in removes :: CanDrop(tags, strict, rt.users, c))
      <==> forall e | e in StaleEmails(current, desired) :: CanDrop(tags, strict, rt.users, current[e]);
    SteadyLater(env, strict, rt.clock, rt.clock + 1);
    hide CanDrop, ApplyOps, RunOps, DistinctKeys, StaleEmails, ClientAdds, Values, Steady;
    SteadyAttempt(env, tags, rt, UserOps(current, desired, order), strict);
    UserBatchIff(env, tags, rt.(clock := rt.clock + 1), removes, adds, strict);
  }

  lemma ApplyRulesIff(env: Env, tags: InboundTags, rt: Runtime, current: map<string, RouteRule>,
                      desired: seq<RouteRule>, order: seq<string>, strict: bool)
    requires Steady(env, strict, rt.clock) && KeyedByTag(current) && Normalize(desired) == desired
    requires IsOrderOf(order, StaleTags(current, desired))
    ensures ApplyOps(env, tags, rt, RuleOps(current, desired, order)).err.None?
       <==> RulesApplicable(strict, rt, current, desired)
  {
    var removes, adds := Values(current, order), RouteAdds(current, desired);
    StaleTagsDistinct(current, order, StaleTags(current, desired));
    ValuesAre(current, order);
    assert (forall r | r in removes :: CanDropRule(strict, Tags(rt.rules), r))
      <==> forall t | t in StaleTags(current, desired) :: CanDropRule(strict, Tags(rt.rules), current[t]);
    SteadyLater(env, strict, rt.clock, rt.clock + 1);
    hide CanDropRule, ApplyOps, RunOps, DistinctTags, StaleTags, RouteAdds, Values, Normalize, Steady;
    SteadyAttempt(env, tags, rt, RuleOps(current, desired, order), strict);
    RuleBatchIff(env, tags, rt.(clock := rt.clock + 1), removes, adds, strict);
  }

  ghost predicate Applicable(tags: InboundTags, strict: bool, w: World, assumeEmpty: bool, ds: PanelState) {
    && UsersApplicable(tags, strict, w.rt, Clients(w, assumeEmpty), ds.clients)
    && RulesApplicable(strict, w.rt, Rules(w, assumeEmpty), Normalize(ds.routes))
  }

  lemma UserPhaseKeepsRules(env: Env, tags: InboundTags, w: World, clients: map<string, Client>, desired: seq<Client>,
                            order: seq<string>, strict: bool)
    requires Steady(env, strict, w.rt.clock)
    ensures ApplyOps(env, tags, w.rt, UserOps(clients, desired, order)).rt.rules == w.rt.rules
  {
    FootprintOfClients(tags, Values(clients, order));
    FootprintOfClients(tags, ClientAdds(clients, desired));
    UserOpsKeepRules(env, tags, Attempt(env, w.rt).0, UserOps(clients, desired, order));
    hide RunOps, UserOps;
  }

  /** Progress: when every call is answered and the core stays up, a synchronisation succeeds exactly when it
      has nothing to do, or every entry to add is locally valid and a strict core has every entry to remove. */
  lemma SyncSucceedsIff(env: Env, tags: InboundTags, w: World, assumeEmpty: bool, ds: PanelState,
                        userOrder: seq<string>, ruleOrder: seq<string>, strict: bool)
    requires Steady(env, strict, w.rt.clock) && KeyedByEmail(w.clients) && KeyedByTag(w.routes)
    requires LegalSync(w, assumeEmpty, Some(ds), userOrder, ruleOrder)
    ensures Sync(env, tags, w, assumeEmpty, Some(ds), userOrder, ruleOrder).1.None?
       <==> TakesFastPath(w, assumeEmpty, ds) || Applicable(tags, strict, w, assumeEmpty, ds)
  {
    if !TakesFastPath(w, assumeEmpty, ds) {
      var clients, routes, rules := Clients(w, assumeEmpty), Rules(w, assumeEmpty), Normalize(ds.routes);
      var a := ApplyOps(env, tags, w.rt, UserOps(clients, ds.clients, userOrder));
      NormalizeFixpoints(ds.routes);
      UserPhaseKeepsRules(env, tags, w, clients, ds.clients, userOrder, strict);
      hide ApplyOps, UserOps, RuleOps, Normalize, UsersApplicable;
      SteadyLater(env, strict, w.rt.clock, a.rt.clock);
      ApplyUsersIff(env, tags, w.rt, clients, ds.clients, userOrder, strict);
      ApplyRulesIff(env, tags, a.rt, routes, rules, ruleOrder, strict);
    }
  }

  // ---------- repeated attempts ----------

  lemma {:induction false} InvalidNeverApplies(env: Env, tags: InboundTags, w: World, ds: PanelState, steps: seq<Step>)
    requires KeyedByTag(w.routes) && LegalRun(env, tags, w, steps) && !TakesFastPath(w, false, ds)
    requires forall i | 0 <= i < |steps| :: IsRetry(steps[i], ds)
    requires (exists c :: c in ClientAdds(w.clients, ds.clients) && !ValidClient(tags, c))
          || (exists r :: r in RouteAdds(w.routes, Normalize(ds.routes)) && !ValidRoute(r))
    ensures LastApplied(env, tags, w, steps).None?
    decreases steps
  {
    if steps != [] {
      var step := steps[0];
      assert IsRetry(step, ds);
      if Applies(env, tags, w, step) {
        AppliedIsValid(env, tags, w, ds, step.userOrder, step.ruleOrder);
      } else {
        hide SlowSync;
        FailureKeeps(env, tags, w, step);
        InvalidNeverApplies(env, tags, Next(env, tags, w, step), ds, steps[1..]);
      }
    }
  }

  lemma AppliedIsValid(env: Env, tags: InboundTags, w: World, ds: PanelState,
                       userOrder: seq<string>, ruleOrder: seq<string>)
    requires KeyedByTag(w.routes) && LegalOrders(w, false, ds, userOrder, ruleOrder)
    requires SlowSync(env, tags, w, false, ds, userOrder, ruleOrder).1.None?
    ensures forall c | c in ClientAdds(w.clients, ds.clients) :: ValidClient(tags, c)
    ensures forall r | r in RouteAdds(w.routes, Normalize(ds.routes)) :: ValidRoute(r)
  {
    NormalizeFixpoints(ds.routes);
    forall c | c in ClientAdds(w.clients, ds.clients) ensures ValidClient(tags, c) {
      StateOk(env, tags, w.rt, w.clients, ds.clients, userOrder, w.routes, Normalize(ds.routes), ruleOrder,
              KeyOf(tags, c));
      assert KeyOf(tags, c) in KeysOf(tags, ClientAdds(w.clients, ds.clients));
    }
    StateOk(env, tags, w.rt, w.clients, ds.clients, userOrder, w.routes, Normalize(ds.routes), ruleOrder, Key("", ""));
  }

  /** Repeating a response helps exactly when the first attempt already succeeds: under such a core, some
      attempt applies the response if and only if it is applicable now. */
  lemma RetriesApplyIff(env: Env, tags: InboundTags, w: World, ds: PanelState, steps: seq<Step>, strict: bool)
    requires Steady(env, strict, w.rt.clock) && Consistent(tags, w) && !TakesFastPath(w, false, ds)
    requires steps != [] && LegalRun(env, tags, w, steps)
    requires forall i | 0 <= i < |steps| :: IsRetry(steps[i], ds) && steps[i].response.Some?
    ensures LastApplied(env, tags, w, steps).Some? <==> Applicable(tags, strict, w, false, ds)
  {
    assert IsRetry(steps[0], ds);
    if Applicable(tags, strict, w, false, ds) {
      SyncSucceedsIff(env, tags, w, false, ds, steps[0].userOrder, steps[0].ruleOrder, strict);
      assert Applies(env, tags, w, steps[0]);
    } else {
      NotApplicable(env, tags, w, ds, steps, strict);
    }
  }

  lemma NotApplicable(env: Env, tags: InboundTags, w: World, ds: PanelState, steps: seq<Step>, strict: bool)
    requires Steady(env, strict, w.rt.clock) && Consistent(tags, w) && !TakesFastPath(w, false, ds)
    requires LegalRun(env, tags, w, steps) && !Applicable(tags, strict, w, false, ds)
    requires forall i | 0 <= i < |steps| :: IsRetry(steps[i], ds)
    ensures LastApplied(env, tags, w, steps).None?
  {
    var rules := Normalize(ds.routes);
    assert NeverRestarts(env, w.rt.clock) && (strict ==> Strict(env, w.rt.clock));
    if e :| e in StaleEmails(w.clients, ds.clients) && !CanDrop(tags, strict, w.rt.users, w.clients[e]) {
      forall i | 0 <= i < |steps| ensures Drops(steps[i], w.clients, e) {
        assert IsRetry(steps[i], ds);
      }
      RemovalLivelock(env, tags, w, e, steps);
    } else if t :| t in StaleTags(w.routes, rules) && !CanDropRule(strict, Tags(w.rt.rules), w.routes[t]) {
      forall i | 0 <= i < |steps| ensures DropsRule(steps[i], w.routes, t) {
        assert IsRetry(steps[i], ds);
      }
      RuleRemovalLivelock(env, tags, w, t, steps);
    } else {
      InvalidNeverApplies(env, tags, w, ds, steps);
    }
  }

  // ---------- attempts after failures ----------

  /** What failures leave behind decides: once the core has become steady, retries of a response are applied, after
      any trouble in which nothing was, if and only if its additions are valid and, in a strict core, every entry to
      remove is still there.  So a strict core in which some attempt dropped a stale entry, answered or not, and
      then failed, blocks the response for good. */
  lemma RetriesAfterTroubleIff(env: Env, tags: InboundTags, w: World, ds: PanelState, trouble: seq<Step>,
                               retries: seq<Step>, strict: bool)
    requires Consistent(tags, w) && !TakesFastPath(w, false, ds) && LastApplied(env, tags, w, trouble).None?
    requires
      var w1 := After(env, tags, w, trouble);
      Steady(env, strict, w1.rt.clock) && retries != [] && LegalRun(env, tags, w1, retries)
    requires forall i | 0 <= i < |retries| :: IsRetry(retries[i], ds) && retries[i].response.Some?
    ensures
      var w1, rules := After(env, tags, w, trouble), Normalize(ds.routes);
      LastApplied(env, tags, w1, retries).Some? <==>
        && UsersApplicable(tags, strict, w1.rt, w.clients, ds.clients)
        && RulesApplicable(strict, w1.rt, w.routes, rules)
  {
    hide After, LastApplied, LegalRun, Steady, UsersApplicable, RulesApplicable, Normalize;
    MemoryIsOneResponse(env, tags, w, trouble);
    RetriesApplyIff(env, tags, After(env, tags, w, trouble), ds, retries, strict);
  }

  /** In particular one entry that was to be removed and is gone blocks it. */
  lemma LostEntryBlocks(env: Env, tags: InboundTags, w: World, ds: PanelState, trouble: seq<Step>, retries: seq<Step>)
    requires Consistent(tags, w) && !TakesFastPath(w, false, ds) && LastApplied(env, tags, w, trouble).None?
    requires
      var w1 := After(env, tags, w, trouble);
      && Strict(env, w1.rt.clock) && NeverRestarts(env, w1.rt.clock) && LegalRun(env, tags, w1, retries)
      && ((exists e :: e in StaleEmails(w.clients, ds.clients) && KeyOf(tags, w.clients[e]) !in w1.rt.users)
          || (exists t :: t in StaleTags(w.routes, Normalize(ds.routes)) && t !in Tags(w1.rt.rules)))
    requires forall i | 0 <= i < |retries| :: IsRetry(retries[i], ds)
    ensures LastApplied(env, tags, After(env, tags, w, trouble), retries).None?
  {
    var w1 := After(env, tags, w, trouble);
    hide After, LastApplied, LegalRun, Normalize, Tags, Strict;
    MemoryIsOneResponse(env, tags, w, trouble);
    if e :| e in StaleEmails(w.clients, ds.clients) && KeyOf(tags, w.clients[e]) !in w1.rt.users {
      forall i | 0 <= i < |retries| ensures Drops(retries[i], w1.clients, e) && retries[i].Synchronize? {
        assert IsRetry(retries[i], ds);
      }
      RemovalLivelock(env, tags, w1, e, retries);
    } else {
      var t :| t in StaleTags(w.routes, Normalize(ds.routes)) && t !in Tags(w1.rt.rules);
      forall i | 0 <= i < |retries| ensures DropsRule(retries[i], w1.routes, t) && retries[i].Synchronize? {
        assert IsRetry(retries[i], ds);
      }
      RuleRemovalLivelock(env, tags, w1, t, retries);
    }
  }
}
