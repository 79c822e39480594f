/** What a reset leaves behind: when it fails or succeeds, and when the core restarts meanwhile. */
module Resets {
  import opened Model
  import opened Routes
  import opened Runtime
  import opened Diff
  import opened Apply
  import opened Batch
  import opened Drift
  import opened Reconciler
  import opened Runs
  import opened Limits

  predicate Remembers(w: World, ds: PanelState) {
    w.version == ds.version && w.clients == ByEmail(ds.clients) && w.routes == ByTag(Normalize(ds.routes))
  }

  /** Every listed client has its account, and the rule list ends with the panel's rules. */
  ghost predicate Serves(tags: InboundTags, rt: Runtime, ds: PanelState) {
    && (forall k | Expected(tags, ByEmail(ds.clients), k).Some? ::
         Lookup(rt.users, k) == Expected(tags, ByEmail(ds.clients), k))
    && (exists before: seq<RouteRule> :: rt.rules == before + Normalize(ds.routes) && Tags(before) !! Tags(ds.routes))
  }

  /** A reset never takes the fast path, so its success means that a response arrived and was remembered. */
  lemma ResetRemembers(env: Env, tags: InboundTags, w: World, response: Option<PanelState>)
    requires Sync(env, tags, w, true, response, [], []).1.None?
    ensures response.Some? && Remembers(Sync(env, tags, w, true, response, [], []).0, response.value)
  {
  }

  lemma ResetServes(env: Env, tags: InboundTags, w: World, ds: PanelState)
    requires DistinctEmails(ds.clients)
    requires var (w', err) := Sync(env, tags, w, true, Some(ds), [], []);
      err.None? && Quiet(env, w.rt.clock, w'.rt.clock)
    ensures Serves(tags, Sync(env, tags, w, true, Some(ds), [], []).0.rt, ds)
  {
    ResetExact(env, tags, w, ds);
    TagsWithout(w.rt.rules, Tags(ds.routes));
    assert Sync(env, tags, w, true, Some(ds), [], []).0.rt.rules
        == Without(w.rt.rules, Tags(ds.routes)) + Normalize(ds.routes);
  }

  // ---------- restarts during a reset ----------

  lemma RouteForgets(env: Env, rt: Runtime, r: RouteRule, k: Key)
    requires k !in env.bootUsers
    ensures var rt' := RemoveRoute(env, rt, r).0; k in rt'.users ==> k in rt.users && Quiet(env, rt.clock, rt'.clock)
    ensures var rt' := AddRoute(env, rt, r).0; k in rt'.users ==> k in rt.users && Quiet(env, rt.clock, rt'.clock)
  {
    hide Without, Tags;
    var (rt1, err) := RemoveRoute(env, rt, r);
    var rt2 := Attempt(env, rt1).0;
    assert k in rt1.users ==> k in rt.users && Quiet(env, rt.clock, rt1.clock);
    assert k in rt2.users ==> k in rt1.users && Quiet(env, rt1.clock, rt2.clock);
    var rt3 := AddRuleCall(env, rt2, r).0;
    assert k in rt3.users ==> k in rt2.users && Quiet(env, rt2.clock, rt3.clock);
    hide RemoveRoute, Attempt, AddRuleCall;
  }

  lemma OpForgets(env: Env, tags: InboundTags, rt: Runtime, op: Op, k: Key)
    requires k !in OpKey(tags, op) && k !in env.bootUsers
    ensures var rt' := Exec(env, tags, rt, op).0; k in rt'.users ==> k in rt.users && Quiet(env, rt.clock, rt'.clock)
  {
    if op.DropRule? || op.PutRule? {
      RouteForgets(env, rt, op.r, k);
      hide RemoveRoute, AddRoute;
    }
  }

  /** A user that no call names, if the core still has it at the end, was there before and no restart came between. */
  lemma {:induction false} RunForgets(env: Env, tags: InboundTags, rt: Runtime, ops: seq<Op>, k: Key)
    requires k !in OpKeys(tags, ops) && k !in env.bootUsers
    ensures var rt' := RunOps(env, tags, rt, ops).0; k in rt'.users ==> k in rt.users && Quiet(env, rt.clock, rt'.clock)
    decreases ops
  {
    if ops != [] {
      OpForgets(env, tags, rt, ops[0], k);
      hide Exec, OpKey;
      RunForgets(env, tags, Exec(env, tags, rt, ops[0]).0, ops[1..], k);
    }
  }

  lemma ApplyForgets(env: Env, tags: InboundTags, rt: Runtime, ops: seq<Op>, k: Key)
    requires k !in OpKeys(tags, ops) && k !in env.bootUsers
    ensures var rt' := ApplyOps(env, tags, rt, ops).rt; k in rt'.users ==> Quiet(env, rt.clock, rt'.clock)
  {
    RunForgets(env, tags, Attempt(env, rt).0, ops, k);
    hide RunOps;
  }

  lemma RouteForgetsTag(env: Env, rt: Runtime, r: RouteRule, t: string)
    requires t != r.tag && t !in Tags(env.bootRules)
    ensures var rt' := RemoveRoute(env, rt, r).0;
      t in Tags(rt'.rules) ==> t in Tags(rt.rules) && Quiet(env, rt.clock, rt'.clock)
    ensures var rt' := AddRoute(env, rt, r).0;
      t in Tags(rt'.rules) ==> t in Tags(rt.rules) && Quiet(env, rt.clock, rt'.clock)
  {
    var (rt1, err) := RemoveRoute(env, rt, r);
    var rt2 := Attempt(env, rt1).0;
    var rt3 := AddRuleCall(env, rt2, r).0;
    TagsWithout(rt.rules, {r.tag});
    TagsWithout(env.bootRules, {r.tag});
    hide Tags, Without;
    assert t in Tags(rt1.rules) ==> t in Tags(rt.rules) && Quiet(env, rt.clock, rt1.clock);
    assert t in Tags(rt2.rules) ==> t in Tags(rt1.rules) && Quiet(env, rt1.clock, rt2.clock);
    assert t in Tags(rt3.rules) ==> t in Tags(rt2.rules) && Quiet(env, rt2.clock, rt3.clock) by {
      AddedTag(rt2.rules, r);
      AddedTag(env.bootRules, r);
    }
    hide RemoveRoute, Attempt, AddRuleCall;
  }

  lemma AddedTag(rules: seq<RouteRule>, r: RouteRule)
    ensures Tags(rules + [r]) == Tags(rules) + {r.tag}
  {
    assert forall x :: x in rules + [r] <==> x in rules || x == r;
  }

  lemma {:induction false} PutRulesForget(env: Env, tags: InboundTags, rt: Runtime, rules: seq<RouteRule>, t: string)
    requires t !in Tags(rules) && t !in Tags(env.bootRules)
    ensures var rt' := RunOps(env, tags, rt, PutRules(rules)).0;
      t in Tags(rt'.rules) ==> t in Tags(rt.rules) && Quiet(env, rt.clock, rt'.clock)
    decreases rules
  {
    if rules != [] {
      var head, tail := rules[0], rules[1..];
      assert rules == [head] + tail && PutRules(rules) == [PutRule(head)] + PutRules(tail);
      TagsCons(head, tail);
      RunStep(env, tags, rt, PutRule(head), PutRules(tail));
      RouteForgetsTag(env, rt, head, t);
      hide AddRoute, RunOps, Tags, PutRules;
      PutRulesForget(env, tags, AddRoute(env, rt, head).0, tail, t);
    }
  }

  /** Whatever restarts land before it, an addition that succeeds leaves the account in place. */
  lemma PutStays(env: Env, tags: InboundTags, rt: Runtime, c: Client)
    requires Exec(env, tags, rt, PutUser(c)).1.None?
    ensures var rt' := Exec(env, tags, rt, PutUser(c)).0;
      && rt'.clock == rt.clock + 2 && ValidClient(tags, c)
      && BuildUser(c).Some? && Lookup(rt'.users, KeyOf(tags, c)) == BuildUser(c)
  {
  }

  lemma ResetBatches(desired: seq<Client>, rules: seq<RouteRule>)
    requires desired != [] && Normalize(rules) == rules
    ensures UserOps(map[], desired, []) == [PutUser(desired[0])] + PutUsers(desired[1..])
    ensures RuleOps(map[], rules, []) == PutRules(rules)
  {
    AllClientsMissing(desired);
    AllRulesMissing(rules);
  }

  /** The three stages of a successful reset: after its first addition, after its clients, and at the end. */
  lemma ResetStages(env: Env, tags: InboundTags, w: World, ds: PanelState) returns (first: Runtime, users: Runtime)
    requires ds.clients != [] && Sync(env, tags, w, true, Some(ds), [], []).1.None?
    ensures
      var rules := Normalize(ds.routes);
      && Exec(env, tags, Attempt(env, w.rt).0, PutUser(ds.clients[0])) == (first, None)
      && first.clock == w.rt.clock + 3
      && RunOps(env, tags, first, PutUsers(ds.clients[1..])) == (users, None)
      && ApplyOps(env, tags, users, PutRules(rules)).err.None?
      && Sync(env, tags, w, true, Some(ds), [], []).0.rt == ApplyOps(env, tags, users, PutRules(rules)).rt
  {
    var rules, rt1 := Normalize(ds.routes), Attempt(env, w.rt).0;
    var put, rest := PutUser(ds.clients[0]), PutUsers(ds.clients[1..]);
    NormalizeFixpoints(ds.routes);
    ResetBatches(ds.clients, rules);
    RunStep(env, tags, rt1, put, rest);
    assert [put] + rest != [];
    hide Exec, UserOps, RuleOps, Normalize, PutUsers, PutRules;
    first := Exec(env, tags, rt1, put).0;
    users := RunOps(env, tags, first, rest).0;
    PutStays(env, tags, rt1, ds.clients[0]);
  }

  lemma FirstKeyAlone(tags: InboundTags, cs: seq<Client>)
    requires cs != [] && DistinctEmails(cs)
    ensures KeyOf(tags, cs[0]) !in OpKeys(tags, PutUsers(cs[1..]))
  {
    FootprintOfClients(tags, cs[1..]);
    DistinctCons(cs[0], cs[1..]);
    assert cs == [cs[0]] + cs[1..];
  }

  lemma Buildable(tags: InboundTags, c: Client)
    requires ValidClient(tags, c)
    ensures BuildUser(c).Some?
  {
  }

  lemma ExpectedAt(tags: InboundTags, cs: seq<Client>, i: nat)
    requires i < |cs| && DistinctEmails(cs) && ValidClient(tags, cs[i])
    ensures Expected(tags, ByEmail(cs), KeyOf(tags, cs[i])).Some?
  {
    Buildable(tags, cs[i]);
    hide ByEmail, BuildUser, TagFor;
    ByEmailDistinct(cs, i);
  }

  lemma ServesImpliesQuiet(env: Env, tags: InboundTags, w: World, ds: PanelState)
    requires DistinctEmails(ds.clients) && ds.clients != [] && KeyOf(tags, ds.clients[0]) !in env.bootUsers
    requires Sync(env, tags, w, true, Some(ds), [], []).1.None?
    requires Serves(tags, Sync(env, tags, w, true, Some(ds), [], []).0.rt, ds)
    ensures Quiet(env, w.rt.clock + 3, Sync(env, tags, w, true, Some(ds), [], []).0.rt.clock)
  {
    var k, puts := KeyOf(tags, ds.clients[0]), PutRules(Normalize(ds.routes));
    var first, users := ResetStages(env, tags, w, ds);
    PutStays(env, tags, Attempt(env, w.rt).0, ds.clients[0]);
    ExpectedAt(tags, ds.clients, 0);
    FirstKeyAlone(tags, ds.clients);
    FootprintOfRoutes(tags, Normalize(ds.routes));
    ApplyForgets(env, tags, users, puts, k);
    ApplyKeeps(env, tags, users, puts, k);
    RunForgets(env, tags, first, PutUsers(ds.clients[1..]), k);
  }

  lemma ApplyKeeps(env: Env, tags: InboundTags, rt: Runtime, ops: seq<Op>, k: Key)
    requires k !in OpKeys(tags, ops) && k !in env.bootUsers
    ensures k in ApplyOps(env, tags, rt, ops).rt.users ==> k in rt.users
  {
    RunForgets(env, tags, Attempt(env, rt).0, ops, k);
    hide RunOps;
  }

  lemma QuietImpliesServes(env: Env, tags: InboundTags, w: World, ds: PanelState)
    requires DistinctEmails(ds.clients) && ds.clients != []
    requires Sync(env, tags, w, true, Some(ds), [], []).1.None?
    requires Quiet(env, w.rt.clock + 3, Sync(env, tags, w, true, Some(ds), [], []).0.rt.clock)
    ensures Serves(tags, Sync(env, tags, w, true, Some(ds), [], []).0.rt, ds)
  {
    var rules, rest := Normalize(ds.routes), ds.clients[1..];
    var first, users := ResetStages(env, tags, w, ds);
    var rt' := Sync(env, tags, w, true, Some(ds), [], []).0.rt;
    RunOk(env, tags, first, PutUsers(rest));
    ApplyOk(env, tags, users, PutRules(rules));
    AfterPutRules(tags, users.users, users.rules, rules);
    hide Sync, RunOps, ApplyOps;
    assert rt'.users == UsersAfter(tags, first.users, PutUsers(rest));
    assert rt'.rules == Without(users.rules, Tags(rules)) + rules;
    forall k | Expected(tags, ByEmail(ds.clients), k).Some?
      ensures Lookup(rt'.users, k) == Expected(tags, ByEmail(ds.clients), k)
    {
      AfterPutUsers(tags, first.users, [], rest, k);
      PutStays(env, tags, Attempt(env, w.rt).0, ds.clients[0]);
      hide UsersAfter;
      ResetUser(tags, ds.clients, k);
    }
    TagsWithout(users.rules, Tags(rules));
  }

  // ---------- responses that list rules only ----------

  /** Whatever restarts land before it, a rule whose addition succeeds stands last, and nowhere else. */
  lemma FirstRule(env: Env, rt: Runtime, r: RouteRule) returns (before: seq<RouteRule>)
    requires AddRoute(env, rt, r).1.None? && r.tag !in Tags(env.bootRules)
    ensures var rt' := AddRoute(env, rt, r).0;
      rt'.clock == rt.clock + 3 && rt'.rules == before + [r] && r.tag !in Tags(before)
  {
    var (rt1, err) := RemoveRoute(env, rt, r);
    var rt2 := Attempt(env, rt1).0;
    TagsWithout(rt.rules, {r.tag});
    TagsWithout(env.bootRules, {r.tag});
    hide Tags, Without;
    assert r.tag !in Tags(rt1.rules);
    assert rt2.rules == rt1.rules || rt2.rules == env.bootRules;
    before := if EventAt(env, rt2.clock).restart then env.bootRules else rt2.rules;
  }

  lemma NoClients(env: Env, tags: InboundTags, w: World, ds: PanelState)
    requires ds.clients == []
    ensures
      var (w', err) := Sync(env, tags, w, true, Some(ds), [], []);
      var a := ApplyOps(env, tags, w.rt, PutRules(Normalize(ds.routes)));
      w'.rt == a.rt && err == a.err
  {
    NormalizeFixpoints(ds.routes);
    AllClientsMissing(ds.clients);
    AllRulesMissing(Normalize(ds.routes));
    assert UserOps(map[], ds.clients, []) == [];
    assert RuleOps(map[], Normalize(ds.routes), []) == PutRules(Normalize(ds.routes));
    hide UserOps, RuleOps, Normalize, PutRules, RunOps;
  }

  lemma RuleStages(env: Env, tags: InboundTags, w: World, ds: PanelState)
    returns (first: Runtime, before: seq<RouteRule>)
    requires ds.clients == [] && Normalize(ds.routes) != []
    requires Sync(env, tags, w, true, Some(ds), [], []).1.None?
    requires Normalize(ds.routes)[0].tag !in Tags(env.bootRules)
    ensures
      var rules := Normalize(ds.routes);
      && first.clock == w.rt.clock + 4 && first.rules == before + [rules[0]] && rules[0].tag !in Tags(before)
      && RunOps(env, tags, first, PutRules(rules[1..])) == (Sync(env, tags, w, true, Some(ds), [], []).0.rt, None)
  {
    hide *;
    var rules, rt1 := Normalize(ds.routes), Attempt(env, w.rt).0;
    NoClients(env, tags, w, ds);
    FirstPut(env, tags, w.rt, rules);
    first := AddRoute(env, rt1, rules[0]).0;
    before := FirstRule(env, rt1, rules[0]);
  }

  lemma FirstPut(env: Env, tags: InboundTags, rt: Runtime, rules: seq<RouteRule>)
    requires rules != [] && ApplyOps(env, tags, rt, PutRules(rules)).err.None?
    ensures
      var rt1 := Attempt(env, rt).0;
      var (first, err) := AddRoute(env, rt1, rules[0]);
      && rt1.clock == rt.clock + 1 && err.None?
      && RunOps(env, tags, first, PutRules(rules[1..])) == (ApplyOps(env, tags, rt, PutRules(rules)).rt, None)
  {
    var op, rest := PutRule(rules[0]), PutRules(rules[1..]);
    assert PutRules(rules) == [op] + rest && [op] + rest != [];
    hide PutRules, RunOps, AddRoute, Tags;
    RunStep(env, tags, Attempt(env, rt).0, op, rest);
  }

  lemma RulesServeIff(env: Env, tags: InboundTags, w: World, ds: PanelState)
    requires ds.clients == [] && Normalize(ds.routes) != []
    requires Sync(env, tags, w, true, Some(ds), [], []).1.None?
    requires Normalize(ds.routes)[0].tag !in Tags(env.bootRules)
    ensures var w' := Sync(env, tags, w, true, Some(ds), [], []).0;
      Serves(tags, w'.rt, ds) <==> Quiet(env, w.rt.clock + 4, w'.rt.clock)
  {
    hide *;
    var rt', rules := Sync(env, tags, w, true, Some(ds), [], []).0.rt, Normalize(ds.routes);
    var first, before := RuleStages(env, tags, w, ds);
    assert rules == [rules[0]] + rules[1..];
    TagsCons(rules[0], rules[1..]);
    NormalizeKeepsMeaning(ds.routes);
    NormalHasDistinctTags(ds.routes);
    if Serves(tags, rt', ds) {
      ServedHead(tags, rt', ds);
      PutRulesForget(env, tags, first, rules[1..], rules[0].tag);
    }
    if Quiet(env, w.rt.clock + 4, rt'.clock) {
      RunOk(env, tags, first, PutRules(rules[1..]));
      AfterPutRules(tags, first.users, first.rules, rules[1..]);
      KeptBefore(before, rules[0], rules[1..]);
      ServesByRules(tags, rt', Without(before, Tags(rules[1..])), ds);
    }
  }

  lemma NormalHasDistinctTags(rules: seq<RouteRule>)
    ensures DistinctTags(Normalize(rules)) && Tags(Normalize(rules)) == Tags(rules)
  {
    NormalizeKeepsMeaning(rules);
  }

  lemma ServedHead(tags: InboundTags, rt: Runtime, ds: PanelState)
    requires Serves(tags, rt, ds) && Normalize(ds.routes) != []
    ensures Normalize(ds.routes)[0].tag in Tags(rt.rules)
  {
    var rules := Normalize(ds.routes);
    var other: seq<RouteRule> :| rt.rules == other + rules && Tags(other) !! Tags(ds.routes);
    assert rt.rules[|other|] == rules[0];
    hide Normalize;
  }

  lemma ServesByRules(tags: InboundTags, rt: Runtime, before: seq<RouteRule>, ds: PanelState)
    requires ds.clients == [] && rt.rules == before + Normalize(ds.routes) && Tags(before) !! Tags(ds.routes)
    ensures Serves(tags, rt, ds)
  {
    assert ByEmail(ds.clients) == map[];
    hide Normalize, Tags;
  }

  lemma KeptBefore(before: seq<RouteRule>, head: RouteRule, rest: seq<RouteRule>)
    requires DistinctTags([head] + rest) && head.tag !in Tags(before)
    ensures Without(before + [head], Tags(rest)) + rest == Without(before, Tags(rest)) + ([head] + rest)
    ensures Tags(Without(before, Tags(rest))) !! Tags([head] + rest)
  {
    TagsCons(head, rest);
    TagsWithout(before, Tags(rest));
    WithoutConcat(before, [head], Tags(rest));
    assert Tags([head]) == {head.tag};
    WithoutAbsent([head], Tags(rest));
  }

  // ---------- any response ----------

  /** The first call after which nothing may be lost: the addition of the first client or, when none is listed,
      that of the first rule. */
  function KeptFrom(ds: PanelState, clock: nat): nat {
    if ds.clients != [] then clock + 3 else clock + 4
  }

  /** The core does not boot with what a reset adds first. */
  predicate FirstIsFresh(env: Env, tags: InboundTags, ds: PanelState) {
    if ds.clients != [] then KeyOf(tags, ds.clients[0]) !in env.bootUsers
    else Normalize(ds.routes) != [] ==> Normalize(ds.routes)[0].tag !in Tags(env.bootRules)
  }

  /** A successful reset leaves the core serving the response exactly when no restart lands after its first
      addition: earlier ones do no harm, and any later one loses what was added first. */
  lemma ResetServesIff(env: Env, tags: InboundTags, w: World, ds: PanelState)
    requires DistinctEmails(ds.clients) && FirstIsFresh(env, tags, ds)
    requires Sync(env, tags, w, true, Some(ds), [], []).1.None?
    ensures var w' := Sync(env, tags, w, true, Some(ds), [], []).0;
      Serves(tags, w'.rt, ds) <==> Quiet(env, KeptFrom(ds, w.rt.clock), w'.rt.clock)
  {
    if ds.clients != [] {
      ClientsServeIff(env, tags, w, ds);
    } else if Normalize(ds.routes) != [] {
      RulesServeIff(env, tags, w, ds);
    } else {
      NoClients(env, tags, w, ds);
      EmptyServes(tags, w.rt, ds);
    }
    hide Sync, Serves, Normalize;
  }

  lemma EmptyServes(tags: InboundTags, rt: Runtime, ds: PanelState)
    requires ds.clients == [] && Normalize(ds.routes) == []
    ensures Serves(tags, rt, ds)
  {
    NormalizeKeepsMeaning(ds.routes);
    assert Tags(Normalize(ds.routes)) == Tags(ds.routes) == {};
    assert rt.rules == rt.rules + Normalize(ds.routes);
  }

  lemma ClientsServeIff(env: Env, tags: InboundTags, w: World, ds: PanelState)
    requires DistinctEmails(ds.clients) && ds.clients != [] && KeyOf(tags, ds.clients[0]) !in env.bootUsers
    requires Sync(env, tags, w, true, Some(ds), [], []).1.None?
    ensures var w' := Sync(env, tags, w, true, Some(ds), [], []).0;
      Serves(tags, w'.rt, ds) <==> Quiet(env, w.rt.clock + 3, w'.rt.clock)
  {
    hide Sync;
    if Serves(tags, Sync(env, tags, w, true, Some(ds), [], []).0.rt, ds) {
      ServesImpliesQuiet(env, tags, w, ds);
    }
    if Quiet(env, w.rt.clock + 3, Sync(env, tags, w, true, Some(ds), [], []).0.rt.clock) {
      QuietImpliesServes(env, tags, w, ds);
    }
  }

  // ---------- resets that fail before one succeeds ----------

  /** The core holds nothing but what the response lists. */
  ghost predicate Inside(tags: InboundTags, rt: Runtime, ds: PanelState) {
    (forall k | k in rt.users :: k in KeysOf(tags, ds.clients)) && Tags(rt.rules) <= Tags(ds.routes)
  }

  ghost predicate BootsInside(env: Env, tags: InboundTags, ds: PanelState) {
    (forall k | k in env.bootUsers :: k in KeysOf(tags, ds.clients)) && Tags(env.bootRules) <= Tags(ds.routes)
  }

  predicate PutsListed(tags: InboundTags, op: Op, ds: PanelState) {
    && (op.PutUser? ==> KeyOf(tags, op.c) in KeysOf(tags, ds.clients))
    && (op.PutRule? ==> op.r.tag in Tags(ds.routes))
  }

  lemma UserOpStaysInside(env: Env, tags: InboundTags, rt: Runtime, op: Op, ds: PanelState)
    requires op.DropUser? || op.PutUser?
    requires BootsInside(env, tags, ds) && Inside(tags, rt, ds) && PutsListed(tags, op, ds)
    ensures Inside(tags, Exec(env, tags, rt, op).0, ds)
  {
    hide Tags, KeysOf;
  }

  lemma RouteTags(env: Env, rt: Runtime, r: RouteRule)
    ensures
      var rt1, rt2 := RemoveRoute(env, rt, r).0, AddRoute(env, rt, r).0;
      && (rt1.users == rt.users || rt1.users == env.bootUsers) && (rt2.users == rt.users || rt2.users == env.bootUsers)
      && Tags(rt1.rules) <= Tags(rt.rules) + Tags(env.bootRules)
      && Tags(rt2.rules) <= Tags(rt.rules) + Tags(env.bootRules) + {r.tag}
  {
    var rt1 := RemoveRoute(env, rt, r).0;
    TagsWithout(rt.rules, {r.tag});
    TagsWithout(env.bootRules, {r.tag});
    assert rt1.users == rt.users || rt1.users == env.bootUsers by {
      hide Tags, Without;
    }
    assert Tags(rt1.rules) <= Tags(rt.rules) + Tags(env.bootRules) by {
      hide Tags, Without;
    }
    hide RemoveRoute, Without;
    AddedTag(rt1.rules, r);
    AddedTag(env.bootRules, r);
    hide Tags;
  }

  lemma RuleOpStaysInside(env: Env, tags: InboundTags, rt: Runtime, op: Op, ds: PanelState)
    requires op.DropRule? || op.PutRule?
    requires BootsInside(env, tags, ds) && Inside(tags, rt, ds) && PutsListed(tags, op, ds)
    ensures Inside(tags, Exec(env, tags, rt, op).0, ds)
  {
    RouteTags(env, rt, op.r);
    hide RemoveRoute, AddRoute, Tags, KeysOf;
  }

  lemma {:induction false} RunStaysInside(env: Env, tags: InboundTags, rt: Runtime, ops: seq<Op>, ds: PanelState)
    requires BootsInside(env, tags, ds) && Inside(tags, rt, ds) && forall op | op in ops :: PutsListed(tags, op, ds)
    ensures Inside(tags, RunOps(env, tags, rt, ops).0, ds)
    decreases ops
  {
    if ops != [] {
      assert ops == [ops[0]] + ops[1..];
      if ops[0].DropUser? || ops[0].PutUser? {
        UserOpStaysInside(env, tags, rt, ops[0], ds);
      } else {
        RuleOpStaysInside(env, tags, rt, ops[0], ds);
      }
      hide Exec, Inside, BootsInside, PutsListed;
      RunStaysInside(env, tags, Exec(env, tags, rt, ops[0]).0, ops[1..], ds);
    }
  }

  lemma ApplyStaysInside(env: Env, tags: InboundTags, rt: Runtime, ops: seq<Op>, ds: PanelState)
    requires BootsInside(env, tags, ds) && Inside(tags, rt, ds) && forall op | op in ops :: PutsListed(tags, op, ds)
    ensures Inside(tags, ApplyOps(env, tags, rt, ops).rt, ds)
  {
    assert Inside(tags, Attempt(env, rt).0, ds) by { hide KeysOf, Tags; }
    hide Attempt, Inside, BootsInside, PutsListed, RunOps;
    RunStaysInside(env, tags, Attempt(env, rt).0, ops, ds);
  }

  lemma UserOpsListed(tags: InboundTags, clients: map<string, Client>, ds: PanelState, order: seq<string>)
    ensures forall op | op in UserOps(clients, ds.clients, order) :: PutsListed(tags, op, ds)
  {
    ClientAddsAre(clients, ds.clients);
    FootprintOfClients(tags, Values(clients, order));
    FootprintOfClients(tags, ClientAdds(clients, ds.clients));
    hide ClientAdds, Values, DropUsers, PutUsers, Tags;
  }

  lemma RuleOpsListed(tags: InboundTags, routes: map<string, RouteRule>, ds: PanelState, order: seq<string>)
    ensures forall op | op in RuleOps(routes, Normalize(ds.routes), order) :: PutsListed(tags, op, ds)
  {
    var rules := Normalize(ds.routes);
    NormalizeFixpoints(ds.routes);
    NormalHasDistinctTags(ds.routes);
    RouteAddsAre(routes, rules);
    FootprintOfRoutes(tags, Values(routes, order));
    FootprintOfRoutes(tags, RouteAdds(routes, rules));
    assert forall r | r in rules :: r.tag in Tags(rules);
    hide Normalize, RouteAdds, Values, DropRules, PutRules, KeysOf;
  }

  /** No attempt at a response, ordinary or reset, stopped anywhere or not, and whatever restarts land in it,
      brings anything else into the core. */
  lemma SyncStaysInside(env: Env, tags: InboundTags, w: World, assumeEmpty: bool, response: Option<PanelState>,
                        userOrder: seq<string>, ruleOrder: seq<string>, ds: PanelState)
    requires response.None? || response == Some(ds)
    requires BootsInside(env, tags, ds) && Inside(tags, w.rt, ds)
    ensures Inside(tags, Sync(env, tags, w, assumeEmpty, response, userOrder, ruleOrder).0.rt, ds)
  {
    if response.Some? {
      var clients, routes := Clients(w, assumeEmpty), Rules(w, assumeEmpty);
      var userOps, ruleOps := UserOps(clients, ds.clients, userOrder), RuleOps(routes, Normalize(ds.routes), ruleOrder);
      hide ApplyOps, UserOps, RuleOps, Normalize, Inside, BootsInside, PutsListed;
      UserOpsListed(tags, clients, ds, userOrder);
      RuleOpsListed(tags, routes, ds, ruleOrder);
      ApplyStaysInside(env, tags, w.rt, userOps, ds);
      ApplyStaysInside(env, tags, ApplyOps(env, tags, w.rt, userOps).rt, ruleOps, ds);
    }
  }

  /** A restart of the core, or a synchronisation, ordinary or reset, that receives this response or none. */
  predicate About(step: Step, ds: PanelState) {
    step.Restart? || step.response.None? || step.response == Some(ds)
  }

  lemma {:induction false} AfterStaysInside(env: Env, tags: InboundTags, w: World, steps: seq<Step>, ds: PanelState)
    requires BootsInside(env, tags, ds) && Inside(tags, w.rt, ds) && forall step | step in steps :: About(step, ds)
    ensures Inside(tags, After(env, tags, w, steps).rt, ds)
    decreases steps
  {
    if steps != [] {
      var step := steps[0];
      assert steps == [step] + steps[1..] && About(step, ds);
      if step.Synchronize? {
        SyncStaysInside(env, tags, w, step.assumeEmpty, step.response, step.userOrder, step.ruleOrder, ds);
      }
      hide Sync, KeysOf, Tags;
      assert Inside(tags, Next(env, tags, w, step).rt, ds);
      hide Next, Inside, BootsInside;
      AfterStaysInside(env, tags, Next(env, tags, w, step), steps[1..], ds);
    }
  }

  lemma ResetKeysValid(env: Env, tags: InboundTags, w: World, ds: PanelState, k: Key)
    requires Sync(env, tags, w, true, Some(ds), [], []).1.None? && k in KeysOf(tags, ds.clients)
    ensures k.tag != ""
  {
    AllClientsMissing(ds.clients);
    NormalizeFixpoints(ds.routes);
    assert k in PlannedKeys(tags, map[], ds.clients);
    hide PlannedKeys, KeysOf, State, UserOps, RuleOps, Normalize;
    StateOk(env, tags, w.rt, map[], ds.clients, [], map[], Normalize(ds.routes), [], k);
  }

  lemma ListedExpected(tags: InboundTags, cs: seq<Client>, k: Key)
    requires DistinctEmails(cs) && k in KeysOf(tags, cs) && k.tag != ""
    ensures Expected(tags, ByEmail(cs), k).Some?
  {
    var i := PositionOfKey(tags, cs, k);
    hide KeysOf, ByEmail;
    ExpectedAt(tags, cs, i);
  }

  lemma PositionOfKey(tags: InboundTags, cs: seq<Client>, k: Key) returns (i: nat)
    requires k in KeysOf(tags, cs)
    ensures i < |cs| && KeyOf(tags, cs[i]) == k
  {
    var c :| c in cs && KeyOf(tags, c) == k;
    i :| 0 <= i < |cs| && cs[i] == c;
  }

  /** Such a core agrees with the response exactly when it serves it: its rule list is then exactly the panel's. */
  ghost predicate Agrees(tags: InboundTags, w: World, ds: PanelState) {
    NoDrift(tags, w) && w.rt.rules == Normalize(ds.routes)
  }

  lemma AgreesIffServes(env: Env, tags: InboundTags, w: World, ds: PanelState)
    requires DistinctEmails(ds.clients) && BootsInside(env, tags, ds) && Inside(tags, w.rt, ds)
    requires Sync(env, tags, w, true, Some(ds), [], []).1.None?
    ensures var w' := Sync(env, tags, w, true, Some(ds), [], []).0; Agrees(tags, w', ds) <==> Serves(tags, w'.rt, ds)
  {
    var w' := Sync(env, tags, w, true, Some(ds), [], []).0;
    ResetRemembers(env, tags, w, Some(ds));
    NormalizeKeepsMeaning(ds.routes);
    SyncStaysInside(env, tags, w, true, Some(ds), [], [], ds);
    forall k | k in KeysOf(tags, ds.clients) ensures k.tag != "" {
      ResetKeysValid(env, tags, w, ds, k);
    }
    hide Sync;
    ServedInsideAgrees(tags, w', ds);
  }

  lemma ServedInsideAgrees(tags: InboundTags, w: World, ds: PanelState)
    requires DistinctEmails(ds.clients) && Inside(tags, w.rt, ds)
    requires w.clients == ByEmail(ds.clients) && w.routes == ByTag(Normalize(ds.routes))
    requires forall k | k in KeysOf(tags, ds.clients) :: k.tag != ""
    ensures Agrees(tags, w, ds) <==> Serves(tags, w.rt, ds)
  {
    UsersServedIff(tags, w, ds);
    RulesServedIff(tags, w, ds);
    hide Keys, Names, Expected, Lookup, Normalize, Inside, KeysOf, Tags;
  }

  lemma UsersServedIff(tags: InboundTags, w: World, ds: PanelState)
    requires DistinctEmails(ds.clients) && Inside(tags, w.rt, ds) && w.clients == ByEmail(ds.clients)
    requires forall k | k in KeysOf(tags, ds.clients) :: k.tag != ""
    ensures Keys(tags, w) == iset{} <==>
      forall k | Expected(tags, ByEmail(ds.clients), k).Some? ::
        Lookup(w.rt.users, k) == Expected(tags, ByEmail(ds.clients), k)
  {
    hide KeysOf, Expected, ByEmail, DistinctEmails;
    forall k | k in w.rt.users ensures Expected(tags, ByEmail(ds.clients), k).Some? {
      ListedExpected(tags, ds.clients, k);
    }
    if Keys(tags, w) == iset{} {
      forall k ensures Lookup(w.rt.users, k) == Expected(tags, ByEmail(ds.clients), k) {
        assert k !in Keys(tags, w);
      }
    }
  }

  lemma RulesServedIff(tags: InboundTags, w: World, ds: PanelState)
    requires Inside(tags, w.rt, ds) && w.routes == ByTag(Normalize(ds.routes))
    ensures Names(w) == iset{} && w.rt.rules == Normalize(ds.routes) <==>
      exists before: seq<RouteRule> :: w.rt.rules == before + Normalize(ds.routes) && Tags(before) !! Tags(ds.routes)
  {
    var rules := Normalize(ds.routes);
    hide Normalize, KeysOf, Tags;
    if before: seq<RouteRule> :| w.rt.rules == before + rules && Tags(before) !! Tags(ds.routes) {
      InsideBefore(w.rt.rules, before, rules, Tags(ds.routes));
      forall t ensures t !in Names(w) {
        RulesAtDistinct(rules, t);
      }
    }
    if w.rt.rules == rules {
      NoTags();
      assert w.rt.rules == [] + rules;
    }
  }

  lemma NoTags()
    ensures Tags([]) == {}
  {
  }

  lemma InsideBefore(all: seq<RouteRule>, before: seq<RouteRule>, rules: seq<RouteRule>, tags: set<string>)
    requires all == before + rules && Tags(all) <= tags && Tags(before) !! tags
    ensures before == [] && all == rules
  {
    assert forall r | r in before :: r in all && r.tag in Tags(before);
    assert Tags(before) <= tags;
    HasMember(before);
  }

  /** A successful reset of a core that holds nothing else, and boots with nothing else, restores full agreement,
      with exactly the panel's rule list, if and only if no restart lands after its first addition. */
  lemma ResetFromInside(env: Env, tags: InboundTags, w: World, ds: PanelState)
    requires DistinctEmails(ds.clients) && FirstIsFresh(env, tags, ds)
    requires BootsInside(env, tags, ds) && Inside(tags, w.rt, ds)
    requires Sync(env, tags, w, true, Some(ds), [], []).1.None?
    ensures var w' := Sync(env, tags, w, true, Some(ds), [], []).0;
      Agrees(tags, w', ds) <==> Quiet(env, KeptFrom(ds, w.rt.clock), w'.rt.clock)
  {
    AgreesIffServes(env, tags, w, ds);
    ResetServesIff(env, tags, w, ds);
    hide *;
  }
}
