/** Whole runs of the reconciler: any interleaving of synchronisations, failures and restarts of the core. */
module Runs {
  import opened Model
  import opened Routes
  import opened Runtime
  import opened Diff
  import opened Apply
  import opened Batch
  import opened Drift
  import opened Reconciler

  datatype Step =
    | Synchronize(assumeEmpty: bool, response: Option<PanelState>, userOrder: seq<string>, ruleOrder: seq<string>)
    | Restart

  function Next(env: Env, tags: InboundTags, w: World, step: Step): (w': World)
    ensures w'.rt.clock >= w.rt.clock
  {
    match step
    case Restart => w.(rt := Boot(env, w.rt))
    case Synchronize(assumeEmpty, response, userOrder, ruleOrder) =>
      Sync(env, tags, w, assumeEmpty, response, userOrder, ruleOrder).0
  }

  ghost predicate Legal(w: World, step: Step) {
    step.Synchronize? ==> LegalSync(w, step.assumeEmpty, step.response, step.userOrder, step.ruleOrder)
  }

  function After(env: Env, tags: InboundTags, w: World, steps: seq<Step>): (w': World)
    ensures w'.rt.clock >= w.rt.clock
    decreases steps
  {
    if steps == [] then w else After(env, tags, Next(env, tags, w, steps[0]), steps[1..])
  }

  ghost predicate LegalRun(env: Env, tags: InboundTags, w: World, steps: seq<Step>)
    decreases steps
  {
    steps == [] || (Legal(w, steps[0]) && LegalRun(env, tags, Next(env, tags, w, steps[0]), steps[1..]))
  }

  // ---------- one synchronisation ----------

  ghost function Planned(tags: InboundTags, w: World, assumeEmpty: bool, ds: PanelState): iset<Key> {
    Infinite(PlannedKeys(tags, Clients(w, assumeEmpty), ds.clients))
  }

  ghost function PlannedNames(w: World, assumeEmpty: bool, ds: PanelState): iset<string> {
    Infinite(PlannedTags(Rules(w, assumeEmpty), Normalize(ds.routes)))
  }

  /** Whatever happens, the agent's maps stay well keyed and locally valid; this needs no assumption about
      the panel, because a client it repeats was either added, and so checked, or already remembered. */
  lemma SyncConsistent(env: Env, tags: InboundTags, w: World, assumeEmpty: bool, response: Option<PanelState>,
                       userOrder: seq<string>, ruleOrder: seq<string>)
    requires Consistent(tags, w) && LegalSync(w, assumeEmpty, response, userOrder, ruleOrder)
    ensures Consistent(tags, Sync(env, tags, w, assumeEmpty, response, userOrder, ruleOrder).0)
  {
    var (w', err) := Sync(env, tags, w, assumeEmpty, response, userOrder, ruleOrder);
    if err.None? && !TakesFastPath(w, assumeEmpty, response.value) {
      var ds := response.value;
      var rules := Normalize(ds.routes);
      NormalizeFixpoints(ds.routes);
      ClientAddsAre(Clients(w, assumeEmpty), ds.clients);
      RouteAddsAre(Rules(w, assumeEmpty), rules);
      forall e | e in w'.clients ensures ValidClient(tags, w'.clients[e]) {
        var c := w'.clients[e];
        StateOk(env, tags, w.rt, Clients(w, assumeEmpty), ds.clients, userOrder,
                Rules(w, assumeEmpty), rules, ruleOrder, KeyOf(tags, c));
        if NeedsAdd(Clients(w, assumeEmpty), c) {
          assert KeyOf(tags, c) in KeysOf(tags, ClientAdds(Clients(w, assumeEmpty), ds.clients));
        }
      }
      forall t | t in w'.routes ensures ValidRoute(w'.routes[t]) {
        var r := w'.routes[t];
        StateOk(env, tags, w.rt, Clients(w, assumeEmpty), ds.clients, userOrder,
                Rules(w, assumeEmpty), rules, ruleOrder, Key("", ""));
        assert r in rules;
        if NeedsRule(Rules(w, assumeEmpty), r) {
          assert r in RouteAdds(Rules(w, assumeEmpty), rules);
        }
      }
    }
  }

  /** A synchronisation, ordinary or reset, that did its work heals exactly what it planned to touch.  No assumption
      about the panel: repeated addresses show up as the shadowed keys. */
  lemma SuccessHeals(env: Env, tags: InboundTags, w: World, assumeEmpty: bool, ds: PanelState,
                     userOrder: seq<string>, ruleOrder: seq<string>)
    requires Consistent(tags, w) && LegalOrders(w, assumeEmpty, ds, userOrder, ruleOrder)
    requires var (w', err) := SlowSync(env, tags, w, assumeEmpty, ds, userOrder, ruleOrder);
      err.None? && Quiet(env, w.rt.clock, w'.rt.clock)
    ensures var w' := SlowSync(env, tags, w, assumeEmpty, ds, userOrder, ruleOrder).0;
      && Keys(tags, w') == UserDrift(tags, w.rt.users, Clients(w, assumeEmpty)) - Planned(tags, w, assumeEmpty, ds)
                           + Shadowed(tags, Clients(w, assumeEmpty), ds.clients)
      && Names(w') == RuleDrift(w.rt.rules, Rules(w, assumeEmpty)) - PlannedNames(w, assumeEmpty, ds)
  {
    var clients, routes, rules := Clients(w, assumeEmpty), Rules(w, assumeEmpty), Normalize(ds.routes);
    UserDriftHealed(env, tags, w.rt, clients, ds.clients, userOrder, routes, rules, ruleOrder);
    StateOk(env, tags, w.rt, clients, ds.clients, userOrder, routes, rules, ruleOrder, Key("", ""));
    RuleDriftHealed(w.rt.rules, routes, rules);
  }

  /** Any synchronisation, failed or not, leaves everything it did not plan to touch as it was or, if restarts
      landed in it, as the core boots with it. */
  lemma SyncFrame(env: Env, tags: InboundTags, w: World, assumeEmpty: bool, ds: PanelState,
                  userOrder: seq<string>, ruleOrder: seq<string>)
    requires Consistent(tags, w) && LegalOrders(w, assumeEmpty, ds, userOrder, ruleOrder)
    ensures
      var rt' := SlowSync(env, tags, w, assumeEmpty, ds, userOrder, ruleOrder).0.rt;
      var base := Base(env, w.rt, rt'.clock);
      && (forall k | k !in Planned(tags, w, assumeEmpty, ds) :: Lookup(rt'.users, k) == Lookup(base.users, k))
      && (forall t | t !in PlannedNames(w, assumeEmpty, ds) :: RulesAt(rt'.rules, t) == RulesAt(base.rules, t))
  {
    var clients, routes, rules := Clients(w, assumeEmpty), Rules(w, assumeEmpty), Normalize(ds.routes);
    var rt' := SlowSync(env, tags, w, assumeEmpty, ds, userOrder, ruleOrder).0.rt;
    var base := Base(env, w.rt, rt'.clock);
    var keys, names := PlannedKeys(tags, clients, ds.clients), PlannedTags(routes, rules);
    StateFrame(env, tags, w.rt, clients, ds.clients, userOrder, routes, rules, ruleOrder);
    hide State, PlannedKeys, PlannedTags, Base;
    forall k | k !in keys ensures Lookup(rt'.users, k) == Lookup(base.users, k) {
      SameBeyond(rt'.users, base.users, keys, k);
    }
    forall t | t !in names ensures RulesAt(rt'.rules, t) == RulesAt(base.rules, t) {
      RulesAtWithout(rt'.rules, names, t);
      RulesAtWithout(base.rules, names, t);
    }
  }

  /** So beyond its plan the disagreement it leaves is that of the core it found, or of the one that booted, with
      what the agent now remembers. */
  lemma SyncContained(env: Env, tags: InboundTags, w: World, assumeEmpty: bool, ds: PanelState,
                      userOrder: seq<string>, ruleOrder: seq<string>)
    requires Consistent(tags, w) && LegalOrders(w, assumeEmpty, ds, userOrder, ruleOrder)
    ensures
      var w' := SlowSync(env, tags, w, assumeEmpty, ds, userOrder, ruleOrder).0;
      var base, keys := Base(env, w.rt, w'.rt.clock), Planned(tags, w, assumeEmpty, ds);
      var names := PlannedNames(w, assumeEmpty, ds);
      && Keys(tags, w') - keys == UserDrift(tags, base.users, w'.clients) - keys
      && Names(w') - names == RuleDrift(base.rules, w'.routes) - names
  {
    hide *;
    var w' := SlowSync(env, tags, w, assumeEmpty, ds, userOrder, ruleOrder).0;
    var base := Base(env, w.rt, w'.rt.clock);
    SyncFrame(env, tags, w, assumeEmpty, ds, userOrder, ruleOrder);
    SameDriftBeyond(tags, w'.rt.users, base.users, w'.clients, Planned(tags, w, assumeEmpty, ds));
    SameRuleDriftBeyond(w'.rt.rules, base.rules, w'.routes, PlannedNames(w, assumeEmpty, ds));
    DriftIs(tags, w');
  }

  lemma DriftIs(tags: InboundTags, w: World)
    ensures Keys(tags, w) == UserDrift(tags, w.rt.users, w.clients) && Names(w) == RuleDrift(w.rt.rules, w.routes)
  {
  }

  lemma SameDriftBeyond(tags: InboundTags, users: map<Key, Account>, users': map<Key, Account>,
                        clients: map<string, Client>, keys: iset<Key>)
    requires forall k | k !in keys :: Lookup(users, k) == Lookup(users', k)
    ensures UserDrift(tags, users, clients) - keys == UserDrift(tags, users', clients) - keys
  {
    hide Lookup, Expected;
  }

  lemma SameRuleDriftBeyond(rules: seq<RouteRule>, rules': seq<RouteRule>, routes: map<string, RouteRule>,
                            names: iset<string>)
    requires forall t | t !in names :: RulesAt(rules, t) == RulesAt(rules', t)
    ensures RuleDrift(rules, routes) - names == RuleDrift(rules', routes) - names
  {
    hide RulesAt, ExpectedRules;
  }

  /** A failing synchronisation keeps the agent's memory and spreads drift over the planned entries at most. */
  lemma FailureContained(env: Env, tags: InboundTags, w: World, assumeEmpty: bool, ds: PanelState,
                         userOrder: seq<string>, ruleOrder: seq<string>)
    requires Consistent(tags, w) && LegalOrders(w, assumeEmpty, ds, userOrder, ruleOrder)
    requires var (w', err) := SlowSync(env, tags, w, assumeEmpty, ds, userOrder, ruleOrder);
      err.Some? && Quiet(env, w.rt.clock, w'.rt.clock)
    ensures var w' := SlowSync(env, tags, w, assumeEmpty, ds, userOrder, ruleOrder).0;
      && w'.version == w.version && w'.clients == w.clients && w'.routes == w.routes
      && Keys(tags, w') - Planned(tags, w, assumeEmpty, ds) == Keys(tags, w) - Planned(tags, w, assumeEmpty, ds)
      && Names(w') - PlannedNames(w, assumeEmpty, ds) == Names(w) - PlannedNames(w, assumeEmpty, ds)
  {
    SyncContained(env, tags, w, assumeEmpty, ds, userOrder, ruleOrder);
    hide State, Planned, PlannedNames, UserDrift, RuleDrift, Normalize;
  }

  lemma SameBeyond(m: map<Key, Account>, n: map<Key, Account>, keys: set<Key>, k: Key)
    requires m - keys == n - keys && k !in keys
    ensures Lookup(m, k) == Lookup(n, k)
  {
    assert k in m - keys <==> k in m;
    assert k in n - keys <==> k in n;
    if k in m {
      assert (m - keys)[k] == m[k] && (n - keys)[k] == n[k];
    }
  }

  // ---------- agreement over whole runs ----------

  /** Users and rule tags on which agent and core may disagree, and those the core may hold at all. */
  datatype Taint = Taint(keys: iset<Key>, names: iset<string>, users: iset<Key>, rules: iset<string>)

  /** What a reset forgets: entries the agent remembered but no longer compares with. */
  ghost function ForgottenKeys(tags: InboundTags, w: World): iset<Key> {
    iset k | Expected(tags, w.clients, k).Some?
  }

  ghost function ForgottenNames(w: World): iset<string> {
    iset t | t in w.routes
  }

  /** After a restart the core holds what it boots with, and disagrees on what the agent remembers otherwise. */
  ghost function Booted(env: Env, tags: InboundTags, w: World): Taint {
    Taint(UserDrift(tags, env.bootUsers, w.clients), RuleDrift(env.bootRules, w.routes),
          Infinite(env.bootUsers.Keys), Infinite(Tags(env.bootRules)))
  }

  ghost function Spread(taint: Taint, keys: iset<Key>, names: iset<string>): Taint {
    Taint(taint.keys + keys, taint.names + names, taint.users + keys, taint.rules + names)
  }

  ghost function Added(tags: InboundTags, w: World, assumeEmpty: bool, ds: PanelState): iset<Key> {
    Infinite(KeysOf(tags, ClientAdds(Clients(w, assumeEmpty), ds.clients)))
  }

  ghost function AddedNames(w: World, assumeEmpty: bool, ds: PanelState): iset<string> {
    Infinite(Tags(RouteAdds(Rules(w, assumeEmpty), Normalize(ds.routes))))
  }

  /** A success clears what was planned.  After a reset, only what the core held before can disagree. */
  ghost function Healed(tags: InboundTags, w: World, taint: Taint, assumeEmpty: bool, ds: PanelState): Taint {
    var keys := if assumeEmpty then taint.users * (taint.keys + ForgottenKeys(tags, w)) else taint.keys;
    var names := if assumeEmpty then taint.rules * (taint.names + ForgottenNames(w)) else taint.names;
    Taint(keys - Planned(tags, w, assumeEmpty, ds) + Shadowed(tags, Clients(w, assumeEmpty), ds.clients),
          names - PlannedNames(w, assumeEmpty, ds),
          taint.users - Planned(tags, w, assumeEmpty, ds) + Added(tags, w, assumeEmpty, ds),
          taint.rules - PlannedNames(w, assumeEmpty, ds) + AddedNames(w, assumeEmpty, ds))
  }

  /** Bookkeeping an observer can do without looking into the core: a failure taints what was planned, a success
      clears it, and a restart, also one in the middle of a synchronisation, starts from what the core boots with. */
  ghost function TaintNext(env: Env, tags: InboundTags, w: World, taint: Taint, step: Step): Taint {
    match step
    case Restart => Booted(env, tags, w)
    case Synchronize(assumeEmpty, response, userOrder, ruleOrder) =>
      if response.None? || TakesFastPath(w, assumeEmpty, response.value) then taint
      else
        var ds := response.value;
        var (w', err) := SlowSync(env, tags, w, assumeEmpty, ds, userOrder, ruleOrder);
        if !Quiet(env, w.rt.clock, w'.rt.clock) then
          Spread(Booted(env, tags, w'), Planned(tags, w, assumeEmpty, ds), PlannedNames(w, assumeEmpty, ds))
        else if err.Some? then Spread(taint, Planned(tags, w, assumeEmpty, ds), PlannedNames(w, assumeEmpty, ds))
        else Healed(tags, w, taint, assumeEmpty, ds)
  }

  ghost function TaintAfter(env: Env, tags: InboundTags, w: World, taint: Taint, steps: seq<Step>): Taint
    decreases steps
  {
    if steps == [] then taint
    else TaintAfter(env, tags, Next(env, tags, w, steps[0]), TaintNext(env, tags, w, taint, steps[0]), steps[1..])
  }

  ghost function HeldKeys(rt: Runtime): iset<Key> {
    Infinite(rt.users.Keys)
  }

  ghost function HeldNames(rt: Runtime): iset<string> {
    Infinite(Tags(rt.rules))
  }

  ghost predicate Covered(tags: InboundTags, w: World, taint: Taint) {
    && Keys(tags, w) <= taint.keys && Names(w) <= taint.names
    && HeldKeys(w.rt) <= taint.users && HeldNames(w.rt) <= taint.rules
  }

  lemma MinusMonotone<T(!new)>(after: iset<T>, before: iset<T>, planned: iset<T>, taint: iset<T>)
    requires after - planned == before - planned && before <= taint
    ensures after <= taint + planned
  {
    forall x | x in after && x !in planned ensures x in taint {
      assert x in after - planned;
    }
  }

  lemma {:induction false} HoldsRule(rules: seq<RouteRule>, t: string)
    ensures t in Tags(rules) <==> RulesAt(rules, t) != []
  {
    if rules != [] {
      assert rules == [rules[0]] + rules[1..];
      TagsCons(rules[0], rules[1..]);
      HoldsRule(rules[1..], t);
    }
  }

  /** What the core holds after any attempt, beyond the plan, it held before or boots with. */
  lemma HeldFrame(env: Env, tags: InboundTags, w: World, assumeEmpty: bool, ds: PanelState,
                  userOrder: seq<string>, ruleOrder: seq<string>)
    requires Consistent(tags, w) && LegalOrders(w, assumeEmpty, ds, userOrder, ruleOrder)
    ensures
      var rt' := SlowSync(env, tags, w, assumeEmpty, ds, userOrder, ruleOrder).0.rt;
      var base := Base(env, w.rt, rt'.clock);
      && HeldKeys(rt') - Planned(tags, w, assumeEmpty, ds) == HeldKeys(base) - Planned(tags, w, assumeEmpty, ds)
      && HeldNames(rt') - PlannedNames(w, assumeEmpty, ds) == HeldNames(base) - PlannedNames(w, assumeEmpty, ds)
  {
    var rt' := SlowSync(env, tags, w, assumeEmpty, ds, userOrder, ruleOrder).0.rt;
    var base := Base(env, w.rt, rt'.clock);
    SyncFrame(env, tags, w, assumeEmpty, ds, userOrder, ruleOrder);
    hide SlowSync, Planned, PlannedNames, Base, RulesAt, Tags;
    forall k | k !in Planned(tags, w, assumeEmpty, ds) ensures k in rt'.users <==> k in base.users {
      assert Lookup(rt'.users, k) == Lookup(base.users, k);
    }
    forall t | t !in PlannedNames(w, assumeEmpty, ds) ensures t in Tags(rt'.rules) <==> t in Tags(base.rules) {
      HoldsRule(rt'.rules, t);
      HoldsRule(base.rules, t);
    }
  }

  /** After a success, of the plan the core holds the additions only. */
  lemma HeldAfterSuccess(env: Env, tags: InboundTags, w: World, assumeEmpty: bool, ds: PanelState,
                         userOrder: seq<string>, ruleOrder: seq<string>)
    requires Consistent(tags, w) && LegalOrders(w, assumeEmpty, ds, userOrder, ruleOrder)
    requires var (w', err) := SlowSync(env, tags, w, assumeEmpty, ds, userOrder, ruleOrder);
      err.None? && Quiet(env, w.rt.clock, w'.rt.clock)
    ensures
      var rt' := SlowSync(env, tags, w, assumeEmpty, ds, userOrder, ruleOrder).0.rt;
      && HeldKeys(rt') <= HeldKeys(w.rt) - Planned(tags, w, assumeEmpty, ds) + Added(tags, w, assumeEmpty, ds)
      && HeldNames(rt') <= HeldNames(w.rt) - PlannedNames(w, assumeEmpty, ds) + AddedNames(w, assumeEmpty, ds)
  {
    var clients, routes, rules := Clients(w, assumeEmpty), Rules(w, assumeEmpty), Normalize(ds.routes);
    var rt' := SlowSync(env, tags, w, assumeEmpty, ds, userOrder, ruleOrder).0.rt;
    var adds := ClientAdds(clients, ds.clients);
    NormalizeFixpoints(ds.routes);
    hide State, Normalize, RouteAdds, UserOps, RuleOps, ClientAdds, PlannedTags, LastPut, Tags;
    StateOk(env, tags, w.rt, clients, ds.clients, userOrder, routes, rules, ruleOrder, Key("", ""));
    ConcatTags(w.rt.rules, PlannedTags(routes, rules), RouteAdds(routes, rules));
    forall k | k in rt'.users
      ensures k in KeysOf(tags, adds) || (k in w.rt.users && k !in PlannedKeys(tags, clients, ds.clients))
    {
      StateOk(env, tags, w.rt, clients, ds.clients, userOrder, routes, rules, ruleOrder, k);
      LastPutIsAnAdd(tags, adds, k);
    }
  }

  lemma ConcatTags(before: seq<RouteRule>, planned: set<string>, adds: seq<RouteRule>)
    ensures Tags(Without(before, planned) + adds) == Tags(before) - planned + Tags(adds)
  {
    var kept := Without(before, planned);
    TagsWithout(before, planned);
    assert forall r :: r in kept + adds <==> r in kept || r in adds;
    hide Without;
  }

  lemma WorkSpreads(env: Env, tags: InboundTags, w: World, taint: Taint, assumeEmpty: bool, ds: PanelState,
                    userOrder: seq<string>, ruleOrder: seq<string>)
    requires Consistent(tags, w) && LegalOrders(w, assumeEmpty, ds, userOrder, ruleOrder)
    requires
      var w' := SlowSync(env, tags, w, assumeEmpty, ds, userOrder, ruleOrder).0;
      Covered(tags, w'.(rt := Base(env, w.rt, w'.rt.clock)), taint)
    ensures
      Covered(tags, SlowSync(env, tags, w, assumeEmpty, ds, userOrder, ruleOrder).0,
              Spread(taint, Planned(tags, w, assumeEmpty, ds), PlannedNames(w, assumeEmpty, ds)))
  {
    var w' := SlowSync(env, tags, w, assumeEmpty, ds, userOrder, ruleOrder).0;
    var base, keys := Base(env, w.rt, w'.rt.clock), Planned(tags, w, assumeEmpty, ds);
    var names := PlannedNames(w, assumeEmpty, ds);
    SyncContained(env, tags, w, assumeEmpty, ds, userOrder, ruleOrder);
    HeldFrame(env, tags, w, assumeEmpty, ds, userOrder, ruleOrder);
    hide SlowSync, Planned, PlannedNames, Base, UserDrift, RuleDrift, HeldKeys, HeldNames;
    MinusMonotone(Keys(tags, w'), UserDrift(tags, base.users, w'.clients), keys, taint.keys);
    MinusMonotone(Names(w'), RuleDrift(base.rules, w'.routes), names, taint.names);
    MinusMonotone(HeldKeys(w'.rt), HeldKeys(base), keys, taint.users);
    MinusMonotone(HeldNames(w'.rt), HeldNames(base), names, taint.rules);
  }

  /** With empty maps a core disagrees on exactly what it holds; that was remembered, or disagreed on before. */
  lemma ResetDrift(tags: InboundTags, w: World)
    ensures UserDrift(tags, w.rt.users, map[]) <= HeldKeys(w.rt) * (Keys(tags, w) + ForgottenKeys(tags, w))
    ensures RuleDrift(w.rt.rules, map[]) <= HeldNames(w.rt) * (Names(w) + ForgottenNames(w))
  {
    forall t | t in RuleDrift(w.rt.rules, map[]) ensures t in HeldNames(w.rt) {
      HoldsRule(w.rt.rules, t);
    }
  }

  lemma WorkHeals(env: Env, tags: InboundTags, w: World, taint: Taint, assumeEmpty: bool, ds: PanelState,
                  userOrder: seq<string>, ruleOrder: seq<string>)
    requires Consistent(tags, w) && LegalOrders(w, assumeEmpty, ds, userOrder, ruleOrder) && Covered(tags, w, taint)
    requires var (w', err) := SlowSync(env, tags, w, assumeEmpty, ds, userOrder, ruleOrder);
      err.None? && Quiet(env, w.rt.clock, w'.rt.clock)
    ensures Covered(tags, SlowSync(env, tags, w, assumeEmpty, ds, userOrder, ruleOrder).0,
                    Healed(tags, w, taint, assumeEmpty, ds))
  {
    SuccessHeals(env, tags, w, assumeEmpty, ds, userOrder, ruleOrder);
    HeldAfterSuccess(env, tags, w, assumeEmpty, ds, userOrder, ruleOrder);
    ResetDrift(tags, w);
    hide SlowSync, Planned, PlannedNames, UserDrift, RuleDrift, HeldKeys, HeldNames, Added, AddedNames, Shadowed;
    hide ForgottenKeys, ForgottenNames;
  }

  lemma StepCovered(env: Env, tags: InboundTags, w: World, taint: Taint, step: Step)
    requires Consistent(tags, w) && Legal(w, step) && Covered(tags, w, taint)
    ensures Consistent(tags, Next(env, tags, w, step))
    ensures Covered(tags, Next(env, tags, w, step), TaintNext(env, tags, w, taint, step))
  {
    if step.Synchronize? {
      var Synchronize(assumeEmpty, response, userOrder, ruleOrder) := step;
      SyncConsistent(env, tags, w, assumeEmpty, response, userOrder, ruleOrder);
      if response.Some? && !TakesFastPath(w, assumeEmpty, response.value) {
        WorkCovered(env, tags, w, taint, assumeEmpty, response.value, userOrder, ruleOrder);
      }
      hide SlowSync, Planned, PlannedNames, Covered, Spread, Healed, Booted;
    }
  }

  lemma WorkCovered(env: Env, tags: InboundTags, w: World, taint: Taint, assumeEmpty: bool, ds: PanelState,
                    userOrder: seq<string>, ruleOrder: seq<string>)
    requires Consistent(tags, w) && LegalOrders(w, assumeEmpty, ds, userOrder, ruleOrder) && Covered(tags, w, taint)
    ensures
      var (w', err) := SlowSync(env, tags, w, assumeEmpty, ds, userOrder, ruleOrder);
      var keys, names := Planned(tags, w, assumeEmpty, ds), PlannedNames(w, assumeEmpty, ds);
      Covered(tags, w',
              if !Quiet(env, w.rt.clock, w'.rt.clock) then Spread(Booted(env, tags, w'), keys, names)
              else if err.Some? then Spread(taint, keys, names)
              else Healed(tags, w, taint, assumeEmpty, ds))
  {
    var (w', err) := SlowSync(env, tags, w, assumeEmpty, ds, userOrder, ruleOrder);
    if Quiet(env, w.rt.clock, w'.rt.clock) {
      if err.Some? {
        assert w'.(rt := Base(env, w.rt, w'.rt.clock)) == w;
        WorkSpreads(env, tags, w, taint, assumeEmpty, ds, userOrder, ruleOrder);
      } else {
        WorkHeals(env, tags, w, taint, assumeEmpty, ds, userOrder, ruleOrder);
      }
    } else {
      BootedCovers(env, tags, w');
      assert w'.(rt := Base(env, w.rt, w'.rt.clock)) == w'.(rt := Boot(env, w.rt));
      WorkSpreads(env, tags, w, Booted(env, tags, w'), assumeEmpty, ds, userOrder, ruleOrder);
    }
    hide State, Covered, Planned, PlannedNames, Spread, Healed, Booted;
  }

  lemma BootedCovers(env: Env, tags: InboundTags, w: World)
    ensures forall rt :: Covered(tags, w.(rt := Boot(env, rt)), Booted(env, tags, w))
  {
  }

  /** Whole-run agreement: over every interleaving of responses, failures at any call, resets and restarts,
      agent and core agree on every user and rule tag outside the taint, and the core holds nothing outside it. */
  lemma {:induction false} RunCovered(env: Env, tags: InboundTags, w: World, taint: Taint, steps: seq<Step>)
    requires Consistent(tags, w) && LegalRun(env, tags, w, steps) && Covered(tags, w, taint)
    ensures Consistent(tags, After(env, tags, w, steps))
    ensures Covered(tags, After(env, tags, w, steps), TaintAfter(env, tags, w, taint, steps))
    decreases steps
  {
    if steps != [] {
      hide Covered, TaintNext, Consistent, Legal, Next;
      StepCovered(env, tags, w, taint, steps[0]);
      RunCovered(env, tags, Next(env, tags, w, steps[0]), TaintNext(env, tags, w, taint, steps[0]), steps[1..]);
    }
  }

  // ---------- agreement returns ----------

  ghost predicate IsReset(step: Step, ds: PanelState) {
    step.Synchronize? && step.assumeEmpty && (step.response.None? || step.response.value == ds)
  }

  /** The core may hold nothing but what the response lists. */
  ghost predicate Within(tags: InboundTags, taint: Taint, ds: PanelState) {
    taint.users <= Infinite(KeysOf(tags, ds.clients)) && taint.rules <= Infinite(Tags(ds.routes))
  }

  lemma {:induction false} AllClientsMissing(desired: seq<Client>)
    ensures ClientAdds(map[], desired) == desired
  {
    if desired != [] {
      AllClientsMissing(desired[1..]);
    }
  }

  lemma {:induction false} AllRulesMissing(desired: seq<RouteRule>)
    ensures RouteAdds(map[], desired) == desired
  {
    if desired != [] {
      AllRulesMissing(desired[1..]);
    }
  }

  lemma NothingStale(clients: seq<Client>, rules: seq<RouteRule>)
    ensures StaleEmails(map[], clients) == {} && StaleTags(map[], rules) == {}
  {
  }

  lemma PlansAll(tags: InboundTags, clients: seq<Client>, rules: seq<RouteRule>)
    requires ClientAdds(map[], clients) == clients && RouteAdds(map[], rules) == rules
    requires StaleEmails(map[], clients) == {} && StaleTags(map[], rules) == {} && Normalize(rules) == rules
    ensures PlannedKeys(tags, map[], clients) == KeysOf(tags, clients) && PlannedTags(map[], rules) == Tags(rules)
  {
    hide KeysOf, Tags, StaleEmails, StaleTags, ClientAdds, RouteAdds, Normalize;
  }

  /** A reset plans for exactly what is listed. */
  lemma ResetPlans(tags: InboundTags, w: World, ds: PanelState)
    ensures Planned(tags, w, true, ds) == Added(tags, w, true, ds) == Infinite(KeysOf(tags, ds.clients))
    ensures PlannedNames(w, true, ds) == AddedNames(w, true, ds) == Infinite(Tags(ds.routes))
  {
    var rules := Normalize(ds.routes);
    NormalizeFixpoints(ds.routes);
    NormalizeKeepsMeaning(ds.routes);
    assert Tags(rules) == Tags(ds.routes);
    hide Normalize, KeysOf, Tags, PlannedKeys, PlannedTags, ClientAdds, RouteAdds;
    AllClientsMissing(ds.clients);
    AllRulesMissing(rules);
    NothingStale(ds.clients, rules);
    PlansAll(tags, ds.clients, rules);
  }

  /** However many resets for one response fail, and whatever restarts land in them, the core can hold nothing but
      what is listed if it boots with nothing else. */
  lemma {:induction false} ResetsStayWithin(env: Env, tags: InboundTags, w: World, taint: Taint, ds: PanelState,
                                            resets: seq<Step>)
    requires (forall i | 0 <= i < |resets| :: IsReset(resets[i], ds)) && Within(tags, taint, ds)
    requires forall w0 :: Within(tags, Booted(env, tags, w0), ds)
    ensures Within(tags, TaintAfter(env, tags, w, taint, resets), ds)
    decreases resets
  {
    if resets != [] {
      assert IsReset(resets[0], ds);
      ResetPlans(tags, w, ds);
      assert Within(tags, TaintNext(env, tags, w, taint, resets[0]), ds) by {
        hide SlowSync, Planned, PlannedNames, Added, AddedNames, Booted, Normalize, Shadowed, KeysOf, Tags;
      }
      hide TaintNext, Within, Next;
      var w1, taint1 := Next(env, tags, w, resets[0]), TaintNext(env, tags, w, taint, resets[0]);
      ResetsStayWithin(env, tags, w1, taint1, ds, resets[1..]);
    }
  }

  /** Agreement returns after a restart: when the core boots with nothing that is not listed, any number of resets
      may fail, at any call and through more restarts, and the first that succeeds undisturbed clears the taint. */
  lemma AgreementReturns(env: Env, tags: InboundTags, w: World, ds: PanelState, resets: seq<Step>, last: Step)
    requires (forall i | 0 <= i < |resets| :: IsReset(resets[i], ds)) && IsReset(last, ds) && DistinctEmails(ds.clients)
    requires env.bootUsers.Keys <= KeysOf(tags, ds.clients) && Tags(env.bootRules) <= Tags(ds.routes)
    requires var w1 := After(env, tags, Next(env, tags, w, Restart), resets);
      last.response.Some? && Applied(env, tags, w1, last) && Quiet(env, w1.rt.clock, Next(env, tags, w1, last).rt.clock)
    ensures
      var w0 := Next(env, tags, w, Restart);
      var w1, taint := After(env, tags, w0, resets), TaintAfter(env, tags, w0, Booted(env, tags, w), resets);
      var cleared := TaintNext(env, tags, w1, taint, last);
      cleared.keys == iset{} && cleared.names == iset{}
  {
    var w0 := Next(env, tags, w, Restart);
    var w1, taint := After(env, tags, w0, resets), TaintAfter(env, tags, w0, Booted(env, tags, w), resets);
    assert forall v :: Within(tags, Booted(env, tags, v), ds) by { hide UserDrift, RuleDrift, KeysOf, Tags; }
    ResetsStayWithin(env, tags, w0, Booted(env, tags, w), ds, resets);
    ResetPlans(tags, w1, ds);
    DistinctNotShadowed(tags, map[], ds.clients);
    hide After, TaintAfter, Planned, PlannedNames, Booted, Shadowed, SlowSync, Normalize;
  }

  ghost predicate Applied(env: Env, tags: InboundTags, w: World, step: Step)
    requires step.Synchronize?
  {
    Sync(env, tags, w, step.assumeEmpty, step.response, step.userOrder, step.ruleOrder).1.None?
  }

  /** The local error of a user removal cannot occur in the removal loop of a reachable state. */
  lemma RemovalsValid(tags: InboundTags, w: World, assumeEmpty: bool, ds: PanelState, order: seq<string>)
    requires Consistent(tags, w) && IsOrderOf(order, StaleEmails(Clients(w, assumeEmpty), ds.clients))
    ensures forall op | op in DropUsers(Values(Clients(w, assumeEmpty), order)) :: ValidOp(tags, op)
  {
    ValuesAre(Clients(w, assumeEmpty), order);
    FootprintOfClients(tags, Values(Clients(w, assumeEmpty), order));
  }

  lemma RouteRemovalsValid(tags: InboundTags, w: World, assumeEmpty: bool, ds: PanelState, order: seq<string>)
    requires Consistent(tags, w)
    ensures forall op | op in DropRules(Values(Rules(w, assumeEmpty), order)) :: ValidOp(tags, op)
  {
    ValuesAre(Rules(w, assumeEmpty), order);
    FootprintOfRoutes(tags, Values(Rules(w, assumeEmpty), order));
  }

  // ---------- retries ----------

  /** Every disagreement lies where the next attempt at this response would look. */
  ghost predicate Repairable(tags: InboundTags, w: World, ds: PanelState) {
    && Keys(tags, w) <= Planned(tags, w, false, ds)
    && Names(w) <= PlannedNames(w, false, ds)
  }

  lemma WorkConvergesIff(env: Env, tags: InboundTags, w: World, ds: PanelState,
                            userOrder: seq<string>, ruleOrder: seq<string>)
    requires Consistent(tags, w) && LegalOrders(w, false, ds, userOrder, ruleOrder)
    requires var (w', err) := SlowSync(env, tags, w, false, ds, userOrder, ruleOrder);
      err.None? && Quiet(env, w.rt.clock, w'.rt.clock)
    ensures NoDrift(tags, SlowSync(env, tags, w, false, ds, userOrder, ruleOrder).0)
       <==> Repairable(tags, w, ds) && Shadowed(tags, w.clients, ds.clients) == iset{}
  {
    SuccessHeals(env, tags, w, false, ds, userOrder, ruleOrder);
    var w' := SlowSync(env, tags, w, false, ds, userOrder, ruleOrder).0;
    var shadowed := Shadowed(tags, w.clients, ds.clients);
    assert Keys(tags, w') == Keys(tags, w) - Planned(tags, w, false, ds) + shadowed;
    if Keys(tags, w') == iset{} {
      forall k | k in Keys(tags, w) ensures k in Planned(tags, w, false, ds) {
        assert k !in Keys(tags, w');
      }
      forall k ensures k !in shadowed {
        assert k !in Keys(tags, w');
      }
    }
    if Names(w') == iset{} {
      forall t | t in Names(w) ensures t in PlannedNames(w, false, ds) {
        assert t !in Names(w');
      }
    }
  }

  /** A successful attempt ends in full agreement exactly when it started repairable and no address shadows;
      one that takes the fast path does so exactly when it started in agreement. */
  lemma SuccessConvergesIff(env: Env, tags: InboundTags, w: World, ds: PanelState,
                            userOrder: seq<string>, ruleOrder: seq<string>)
    requires Consistent(tags, w) && LegalSync(w, false, Some(ds), userOrder, ruleOrder)
    requires var (w', err) := Sync(env, tags, w, false, Some(ds), userOrder, ruleOrder);
      err.None? && Quiet(env, w.rt.clock, w'.rt.clock)
    ensures NoDrift(tags, Sync(env, tags, w, false, Some(ds), userOrder, ruleOrder).0) <==>
      if TakesFastPath(w, false, ds) then NoDrift(tags, w)
      else Repairable(tags, w, ds) && Shadowed(tags, w.clients, ds.clients) == iset{}
  {
    hide SlowSync, NoDrift, Repairable, Shadowed;
    if !TakesFastPath(w, false, ds) {
      WorkConvergesIff(env, tags, w, ds, userOrder, ruleOrder);
    }
  }

  ghost predicate IsRetry(step: Step, ds: PanelState) {
    step.Synchronize? && !step.assumeEmpty && (step.response.None? || step.response.value == ds)
  }

  lemma EmptyPlans(tags: InboundTags, clients: map<string, Client>, desired: seq<Client>,
                   routes: map<string, RouteRule>, rules: seq<RouteRule>)
    requires ClientAdds(clients, desired) == [] && StaleEmails(clients, desired) == {}
    requires RouteAdds(routes, Normalize(rules)) == [] && StaleTags(routes, Normalize(rules)) == {}
    ensures PlannedKeys(tags, clients, desired) == {} && PlannedTags(routes, rules) == {}
  {
  }

  lemma SettledIsRepaired(tags: InboundTags, w: World, ds: PanelState)
    requires Consistent(tags, w) && DistinctEmails(ds.clients)
    requires TakesFastPath(w, false, ds) && Repairable(tags, w, ds)
    ensures NoDrift(tags, w)
  {
    ClientsUnchanged(w.clients, ds.clients);
    RoutesUnchanged(w.routes, Normalize(ds.routes));
    NormalizeFixpoints(ds.routes);
    EmptyPlans(tags, w.clients, ds.clients, w.routes, Normalize(ds.routes));
  }

  lemma RetryStaysRepairable(env: Env, tags: InboundTags, w: World, ds: PanelState, step: Step)
    requires DistinctEmails(ds.clients) && IsRetry(step, ds)
    requires Consistent(tags, w) && Legal(w, step) && Repairable(tags, w, ds)
    requires Quiet(env, w.rt.clock, Next(env, tags, w, step).rt.clock)
    ensures var (w', err) := Sync(env, tags, w, false, step.response, step.userOrder, step.ruleOrder);
      if err.None? then NoDrift(tags, w') else Repairable(tags, w', ds)
  {
    if step.response.Some? {
      if TakesFastPath(w, false, ds) {
        SettledIsRepaired(tags, w, ds);
      } else if SlowSync(env, tags, w, false, ds, step.userOrder, step.ruleOrder).1.Some? {
        var w', keys, names := Next(env, tags, w, step), Planned(tags, w, false, ds), PlannedNames(w, false, ds);
        FailureContained(env, tags, w, false, ds, step.userOrder, step.ruleOrder);
        MinusMonotone(Keys(tags, w'), Keys(tags, w), keys, keys);
        MinusMonotone(Names(w'), Names(w), names, names);
      } else {
        DistinctNotShadowed(tags, w.clients, ds.clients);
        WorkConvergesIff(env, tags, w, ds, step.userOrder, step.ruleOrder);
      }
    }
  }

  /** Retry convergence: however many attempts at one response fail, and wherever they stop, the first one
      that succeeds restores full agreement, also for clients that moved between inbounds. */
  lemma {:induction false} RetriesConverge(env: Env, tags: InboundTags, w: World, ds: PanelState, steps: seq<Step>)
    requires DistinctEmails(ds.clients) && (forall i | 0 <= i < |steps| :: IsRetry(steps[i], ds))
    requires Consistent(tags, w) && LegalRun(env, tags, w, steps) && Repairable(tags, w, ds)
    requires Quiet(env, w.rt.clock, After(env, tags, w, steps).rt.clock)
    ensures Repairable(tags, After(env, tags, w, steps), ds)
    ensures Succeeds(env, tags, w, steps) ==> NoDrift(tags, After(env, tags, w, steps))
    decreases steps
  {
    if steps != [] {
      var step := steps[0];
      var w1 := Next(env, tags, w, step);
      assert IsRetry(step, ds);
      SyncConsistent(env, tags, w, false, step.response, step.userOrder, step.ruleOrder);
      RetryStaysRepairable(env, tags, w, ds, step);
      RetriesConverge(env, tags, w1, ds, steps[1..]);
    }
  }

  /** The last step is a synchronisation that reports no error. */
  ghost predicate Succeeds(env: Env, tags: InboundTags, w: World, steps: seq<Step>)
    decreases steps
  {
    if steps == [] then false
    else if |steps| == 1 then
      steps[0].Synchronize?
      && Sync(env, tags, w, steps[0].assumeEmpty, steps[0].response, steps[0].userOrder, steps[0].ruleOrder).1.None?
    else Succeeds(env, tags, Next(env, tags, w, steps[0]), steps[1..])
  }
}
