/** Closed forms of a whole synchronisation: the exact users and rules a successful one leaves behind, and
    the entries that any other one may have touched. */
module Batch {
  import opened Model
  import opened Routes
  import opened Runtime
  import opened Diff
  import opened Apply

  function UserOps(current: map<string, Client>, desired: seq<Client>, order: seq<string>): seq<Op> {
    DropUsers(Values(current, order)) + PutUsers(ClientAdds(current, desired))
  }

  function RuleOps(current: map<string, RouteRule>, desired: seq<RouteRule>, order: seq<string>): seq<Op> {
    DropRules(Values(current, order)) + PutRules(RouteAdds(current, Normalize(desired)))
  }

  function KeysOf(tags: InboundTags, cs: seq<Client>): set<Key> {
    set c | c in cs :: KeyOf(tags, c)
  }

  function Lookup(users: map<Key, Account>, k: Key): Option<Account> {
    if k in users then Some(users[k]) else None
  }

  /** The account the last addition for a key carries. */
  function LastPut(tags: InboundTags, adds: seq<Client>, k: Key): Option<Account> {
    if adds == [] then None
    else
      var later := LastPut(tags, adds[1..], k);
      if later.Some? then later else if KeyOf(tags, adds[0]) == k then BuildUser(adds[0]) else None
  }

  // ---------- folds ----------

  lemma {:induction false} AfterConcat(tags: InboundTags, users: map<Key, Account>, rules: seq<RouteRule>,
                                       xs: seq<Op>, ys: seq<Op>)
    ensures UsersAfter(tags, users, xs + ys) == UsersAfter(tags, UsersAfter(tags, users, xs), ys)
    ensures RulesAfter(rules, xs + ys) == RulesAfter(RulesAfter(rules, xs), ys)
    decreases xs
  {
    if xs == [] {
      assert xs + ys == ys;
    } else {
      assert (xs + ys)[1..] == xs[1..] + ys;
      AfterConcat(tags, UserEffect(tags, users, xs[0]), RuleEffect(rules, xs[0]), xs[1..], ys);
    }
  }

  lemma {:induction false} AfterDropUsers(tags: InboundTags, users: map<Key, Account>, rules: seq<RouteRule>,
                                          cs: seq<Client>)
    ensures UsersAfter(tags, users, DropUsers(cs)) == users - KeysOf(tags, cs)
    ensures RulesAfter(rules, DropUsers(cs)) == rules
    decreases cs
  {
    if cs != [] {
      AfterDropUsers(tags, users - {KeyOf(tags, cs[0])}, rules, cs[1..]);
      assert KeysOf(tags, cs) == {KeyOf(tags, cs[0])} + KeysOf(tags, cs[1..]) by {
        assert cs == [cs[0]] + cs[1..];
      }
    }
  }

  lemma {:induction false} AfterPutUsers(tags: InboundTags, users: map<Key, Account>, rules: seq<RouteRule>,
                                         cs: seq<Client>, k: Key)
    ensures Lookup(UsersAfter(tags, users, PutUsers(cs)), k)
         == if LastPut(tags, cs, k).Some? then LastPut(tags, cs, k) else Lookup(users, k)
    ensures RulesAfter(rules, PutUsers(cs)) == rules
    decreases cs
  {
    if cs != [] {
      AfterPutUsers(tags, UserEffect(tags, users, PutUser(cs[0])), rules, cs[1..], k);
    }
  }

  lemma {:induction false} AfterDropRules(tags: InboundTags, users: map<Key, Account>, rules: seq<RouteRule>,
                                          rs: seq<RouteRule>)
    ensures RulesAfter(rules, DropRules(rs)) == Without(rules, Tags(rs))
    ensures UsersAfter(tags, users, DropRules(rs)) == users
    decreases rs
  {
    if rs == [] {
      assert Tags(rs) == {};
      WithoutAbsent(rules, {});
    } else {
      AfterDropRules(tags, users, Without(rules, {rs[0].tag}), rs[1..]);
      assert rs == [rs[0]] + rs[1..];
      TagsCons(rs[0], rs[1..]);
      WithoutTwice(rules, {rs[0].tag}, Tags(rs[1..]));
    }
  }

  lemma {:induction false} AfterPutRules(tags: InboundTags, users: map<Key, Account>, rules: seq<RouteRule>,
                                         rs: seq<RouteRule>)
    requires DistinctTags(rs)
    ensures RulesAfter(rules, PutRules(rs)) == Without(rules, Tags(rs)) + rs
    ensures UsersAfter(tags, users, PutRules(rs)) == users
    decreases rs
  {
    if rs == [] {
      assert Tags(rs) == {};
      WithoutAbsent(rules, {});
    } else {
      var head, tail := rs[0], rs[1..];
      assert rs == [head] + tail;
      TagsCons(head, tail);
      AfterPutRules(tags, users, Without(rules, {head.tag}) + [head], tail);
      AppendThenRest(rules, head, tail);
    }
  }

  lemma AppendThenRest(rules: seq<RouteRule>, head: RouteRule, tail: seq<RouteRule>)
    requires DistinctTags([head] + tail)
    ensures Without(Without(rules, {head.tag}) + [head], Tags(tail)) + tail
         == Without(rules, Tags([head] + tail)) + ([head] + tail)
  {
    TagsCons(head, tail);
    WithoutConcat(Without(rules, {head.tag}), [head], Tags(tail));
    WithoutTwice(rules, {head.tag}, Tags(tail));
    assert Tags([head]) == {head.tag};
    WithoutAbsent([head], Tags(tail));
  }

  // ---------- footprints ----------

  lemma {:induction false} FootprintConcat(tags: InboundTags, xs: seq<Op>, ys: seq<Op>)
    ensures OpKeys(tags, xs + ys) == OpKeys(tags, xs) + OpKeys(tags, ys)
    ensures OpTags(xs + ys) == OpTags(xs) + OpTags(ys)
    decreases xs
  {
    if xs == [] {
      assert xs + ys == ys;
    } else {
      assert (xs + ys)[1..] == xs[1..] + ys;
      FootprintConcat(tags, xs[1..], ys);
    }
  }

  lemma {:induction false} FootprintOfClients(tags: InboundTags, cs: seq<Client>)
    ensures OpKeys(tags, DropUsers(cs)) == OpKeys(tags, PutUsers(cs)) == KeysOf(tags, cs)
    ensures OpTags(DropUsers(cs)) == OpTags(PutUsers(cs)) == {}
    ensures forall op :: op in DropUsers(cs) <==> op.DropUser? && op.c in cs
    ensures forall op :: op in PutUsers(cs) <==> op.PutUser? && op.c in cs
  {
    if cs != [] {
      FootprintOfClients(tags, cs[1..]);
      assert cs == [cs[0]] + cs[1..];
      assert KeysOf(tags, cs) == {KeyOf(tags, cs[0])} + KeysOf(tags, cs[1..]);
    }
  }

  lemma {:induction false} FootprintOfRoutes(tags: InboundTags, rs: seq<RouteRule>)
    ensures OpTags(DropRules(rs)) == OpTags(PutRules(rs)) == Tags(rs)
    ensures OpKeys(tags, DropRules(rs)) == OpKeys(tags, PutRules(rs)) == {}
    ensures forall op :: op in DropRules(rs) <==> op.DropRule? && op.r in rs
    ensures forall op :: op in PutRules(rs) <==> op.PutRule? && op.r in rs
  {
    if rs != [] {
      FootprintOfRoutes(tags, rs[1..]);
      assert rs == [rs[0]] + rs[1..];
      assert Tags(rs) == {rs[0].tag} + Tags(rs[1..]);
    }
  }

  // ---------- one State call ----------

  function StaleKeys(tags: InboundTags, current: map<string, Client>, desired: seq<Client>): set<Key> {
    set e | e in StaleEmails(current, desired) :: KeyOf(tags, current[e])
  }

  /** The users an ordinary difference removes or adds. */
  function PlannedKeys(tags: InboundTags, current: map<string, Client>, desired: seq<Client>): set<Key> {
    StaleKeys(tags, current, desired) + KeysOf(tags, ClientAdds(current, desired))
  }

  function PlannedTags(current: map<string, RouteRule>, desired: seq<RouteRule>): set<string> {
    StaleTags(current, Normalize(desired)) + Tags(RouteAdds(current, Normalize(desired)))
  }

  lemma UserOpsFootprint(tags: InboundTags, current: map<string, Client>, desired: seq<Client>, order: seq<string>)
    requires IsOrderOf(order, StaleEmails(current, desired))
    ensures KeysOf(tags, Values(current, order)) == StaleKeys(tags, current, desired)
    ensures OpKeys(tags, UserOps(current, desired, order)) == PlannedKeys(tags, current, desired)
    ensures OpTags(UserOps(current, desired, order)) == {}
  {
    ValuesAre(current, order);
    FootprintOfClients(tags, Values(current, order));
    FootprintOfClients(tags, ClientAdds(current, desired));
    FootprintConcat(tags, DropUsers(Values(current, order)), PutUsers(ClientAdds(current, desired)));
  }

  lemma RuleOpsFootprint(tags: InboundTags, current: map<string, RouteRule>, desired: seq<RouteRule>,
                         order: seq<string>)
    requires KeyedByTag(current) && IsOrderOf(order, StaleTags(current, Normalize(desired)))
    ensures Tags(Values(current, order)) == StaleTags(current, Normalize(desired))
    ensures OpTags(RuleOps(current, desired, order)) == PlannedTags(current, desired)
    ensures OpKeys(tags, RuleOps(current, desired, order)) == {}
  {
    ValuesAre(current, order);
    FootprintOfRoutes(tags, Values(current, order));
    FootprintOfRoutes(tags, RouteAdds(current, Normalize(desired)));
    FootprintConcat(tags, DropRules(Values(current, order)), PutRules(RouteAdds(current, Normalize(desired))));
  }

  /** The additions of a rule difference have distinct tags, whatever list the panel sent. */
  lemma {:induction false} RouteAddsDistinct(current: map<string, RouteRule>, desired: seq<RouteRule>)
    requires DistinctTags(desired)
    ensures DistinctTags(RouteAdds(current, desired))
    ensures Tags(RouteAdds(current, desired)) <= Tags(desired)
  {
    if desired != [] {
      assert desired == [desired[0]] + desired[1..];
      TagsCons(desired[0], desired[1..]);
      RouteAddsDistinct(current, desired[1..]);
      TagsCons(desired[0], RouteAdds(current, desired[1..]));
    }
  }

  lemma ApplyOk(env: Env, tags: InboundTags, rt: Runtime, ops: seq<Op>)
    requires ApplyOps(env, tags, rt, ops).err.None?
    ensures forall op | op in ops :: ValidOp(tags, op)
    ensures var rt' := ApplyOps(env, tags, rt, ops).rt;
      Quiet(env, rt.clock, rt'.clock) ==>
        rt'.users == UsersAfter(tags, rt.users, ops) && rt'.rules == RulesAfter(rt.rules, ops)
  {
    if ops != [] {
      RunOk(env, tags, Attempt(env, rt).0, ops);
    }
  }

  lemma ApplyFrame(env: Env, tags: InboundTags, rt: Runtime, ops: seq<Op>)
    ensures Framed(env, rt, ApplyOps(env, tags, rt, ops).rt, OpKeys(tags, ops), OpTags(ops))
  {
    hide Framed, RunOps;
    FramedSame(env, rt);
    if ops != [] {
      var rt1 := Attempt(env, rt).0;
      AttemptFramed(env, rt);
      if Attempt(env, rt).1 == Done {
        RunFrame(env, tags, rt1, ops);
        FramedStep(env, rt, rt1, ApplyOps(env, tags, rt, ops).rt, {}, OpKeys(tags, ops), {}, OpTags(ops));
        assert {} + OpKeys(tags, ops) == OpKeys(tags, ops) && {} + OpTags(ops) == OpTags(ops);
      } else {
        FramedWiden(env, rt, rt1, OpKeys(tags, ops), OpTags(ops));
      }
    }
  }

  /** A State call, wherever it stopped, disturbed nothing outside the planned users and rules; if restarts
      landed in it, the rest is what the core boots with. */
  lemma StateFrame(env: Env, tags: InboundTags, rt: Runtime,
                   clients: map<string, Client>, desired: seq<Client>, userOrder: seq<string>,
                   routes: map<string, RouteRule>, rules: seq<RouteRule>, ruleOrder: seq<string>)
    requires IsOrderOf(userOrder, StaleEmails(clients, desired))
    requires KeyedByTag(routes) && IsOrderOf(ruleOrder, StaleTags(routes, Normalize(rules)))
    ensures
      var s := State(env, tags, rt, UserOps(clients, desired, userOrder), RuleOps(routes, rules, ruleOrder));
      Framed(env, rt, s.rt, PlannedKeys(tags, clients, desired), PlannedTags(routes, rules))
  {
    var userOps, ruleOps := UserOps(clients, desired, userOrder), RuleOps(routes, rules, ruleOrder);
    var keys, names := PlannedKeys(tags, clients, desired), PlannedTags(routes, rules);
    hide Framed, ApplyOps, UserOps, RuleOps, PlannedKeys, PlannedTags, Normalize;
    UserOpsFootprint(tags, clients, desired, userOrder);
    RuleOpsFootprint(tags, routes, rules, ruleOrder);
    var a := ApplyOps(env, tags, rt, userOps);
    ApplyFrame(env, tags, rt, userOps);
    if a.err.None? {
      ApplyFrame(env, tags, a.rt, ruleOps);
    } else {
      FramedSame(env, a.rt);
      FramedWiden(env, a.rt, a.rt, {}, names);
    }
    var s := State(env, tags, rt, userOps, ruleOps);
    FramedStep(env, rt, a.rt, s.rt, keys, {}, {}, names);
    assert keys + {} == keys && {} + names == names;
  }

  /** A State call that reports success had valid entries only and, if the core did not restart meanwhile,
      left exactly these users and this list of rules behind. */
  lemma StateOk(env: Env, tags: InboundTags, rt: Runtime,
                clients: map<string, Client>, desired: seq<Client>, userOrder: seq<string>,
                routes: map<string, RouteRule>, rules: seq<RouteRule>, ruleOrder: seq<string>, k: Key)
    requires IsOrderOf(userOrder, StaleEmails(clients, desired))
    requires KeyedByTag(routes) && IsOrderOf(ruleOrder, StaleTags(routes, Normalize(rules)))
    requires State(env, tags, rt, UserOps(clients, desired, userOrder), RuleOps(routes, rules, ruleOrder)).err.None?
    ensures k in PlannedKeys(tags, clients, desired) ==> k.tag != ""
    ensures forall r | r in RouteAdds(routes, Normalize(rules)) :: ValidRoute(r)
    ensures
      var s := State(env, tags, rt, UserOps(clients, desired, userOrder), RuleOps(routes, rules, ruleOrder));
      var adds, newRules := ClientAdds(clients, desired), RouteAdds(routes, Normalize(rules));
      Quiet(env, rt.clock, s.rt.clock) ==>
        && Lookup(s.rt.users, k) == (
             if LastPut(tags, adds, k).Some? then LastPut(tags, adds, k)
             else if k in StaleKeys(tags, clients, desired) then None
             else Lookup(rt.users, k))
        && s.rt.rules == Without(rt.rules, PlannedTags(routes, rules)) + newRules
  {
    var userOps, ruleOps := UserOps(clients, desired, userOrder), RuleOps(routes, rules, ruleOrder);
    var a := ApplyOps(env, tags, rt, userOps);
    ApplyOk(env, tags, rt, userOps);
    ApplyOk(env, tags, a.rt, ruleOps);
    UserOpsValid(tags, clients, desired, userOrder);
    RuleOpsValid(tags, routes, rules, ruleOrder);
    UserOpsAfter(tags, rt.users, rt.rules, clients, desired, userOrder, k);
    RuleOpsAfter(tags, a.rt.users, a.rt.rules, routes, rules, ruleOrder);
  }

  /** Two successful calls that walked the maps in different orders, and met different answers, leave the
      same users and the same list of rules. */
  lemma OrderImmaterial(env: Env, env': Env, tags: InboundTags, rt: Runtime, clients: map<string, Client>,
                        desired: seq<Client>, userOrder: seq<string>, userOrder': seq<string>,
                        routes: map<string, RouteRule>, rules: seq<RouteRule>,
                        ruleOrder: seq<string>, ruleOrder': seq<string>)
    requires IsOrderOf(userOrder, StaleEmails(clients, desired)) && IsOrderOf(userOrder', StaleEmails(clients, desired))
    requires IsOrderOf(ruleOrder, StaleTags(routes, Normalize(rules)))
    requires IsOrderOf(ruleOrder', StaleTags(routes, Normalize(rules))) && KeyedByTag(routes)
    requires var s := State(env, tags, rt, UserOps(clients, desired, userOrder), RuleOps(routes, rules, ruleOrder));
      s.err.None? && Quiet(env, rt.clock, s.rt.clock)
    requires var s := State(env', tags, rt, UserOps(clients, desired, userOrder'), RuleOps(routes, rules, ruleOrder'));
      s.err.None? && Quiet(env', rt.clock, s.rt.clock)
    ensures
      var s := State(env, tags, rt, UserOps(clients, desired, userOrder), RuleOps(routes, rules, ruleOrder));
      var s' := State(env', tags, rt, UserOps(clients, desired, userOrder'), RuleOps(routes, rules, ruleOrder'));
      s.rt.users == s'.rt.users && s.rt.rules == s'.rt.rules
  {
    hide State, UserOps, RuleOps, Normalize, IsOrderOf;
    var s := State(env, tags, rt, UserOps(clients, desired, userOrder), RuleOps(routes, rules, ruleOrder));
    var s' := State(env', tags, rt, UserOps(clients, desired, userOrder'), RuleOps(routes, rules, ruleOrder'));
    StateOk(env, tags, rt, clients, desired, userOrder, routes, rules, ruleOrder, Key("", ""));
    StateOk(env', tags, rt, clients, desired, userOrder', routes, rules, ruleOrder', Key("", ""));
    forall k ensures Lookup(s.rt.users, k) == Lookup(s'.rt.users, k) {
      StateOk(env, tags, rt, clients, desired, userOrder, routes, rules, ruleOrder, k);
      StateOk(env', tags, rt, clients, desired, userOrder', routes, rules, ruleOrder', k);
    }
    SameLookups(s.rt.users, s'.rt.users);
  }

  lemma SameLookups(m: map<Key, Account>, n: map<Key, Account>)
    requires forall k :: Lookup(m, k) == Lookup(n, k)
    ensures m == n
  {
    forall k ensures (k in m <==> k in n) && (k in m ==> m[k] == n[k]) {
      assert Lookup(m, k) == Lookup(n, k);
    }
  }

  lemma UserOpsAfter(tags: InboundTags, users: map<Key, Account>, rules: seq<RouteRule>,
                     clients: map<string, Client>, desired: seq<Client>, order: seq<string>, k: Key)
    requires IsOrderOf(order, StaleEmails(clients, desired))
    ensures var ops, adds := UserOps(clients, desired, order), ClientAdds(clients, desired);
      && RulesAfter(rules, ops) == rules
      && Lookup(UsersAfter(tags, users, ops), k) == (
           if LastPut(tags, adds, k).Some? then LastPut(tags, adds, k)
           else if k in StaleKeys(tags, clients, desired) then None
           else Lookup(users, k))
  {
    var removes, adds := Values(clients, order), ClientAdds(clients, desired);
    UserOpsFootprint(tags, clients, desired, order);
    AfterConcat(tags, users, rules, DropUsers(removes), PutUsers(adds));
    AfterDropUsers(tags, users, rules, removes);
    AfterPutUsers(tags, users - KeysOf(tags, removes), rules, adds, k);
  }

  lemma UserOpsValid(tags: InboundTags, clients: map<string, Client>, desired: seq<Client>, order: seq<string>)
    requires IsOrderOf(order, StaleEmails(clients, desired))
    requires forall op | op in UserOps(clients, desired, order) :: ValidOp(tags, op)
    ensures forall k | k in PlannedKeys(tags, clients, desired) :: k.tag != ""
  {
    var removes, adds := Values(clients, order), ClientAdds(clients, desired);
    UserOpsFootprint(tags, clients, desired, order);
    FootprintOfClients(tags, removes);
    FootprintOfClients(tags, adds);
    forall c | c in removes ensures ValidClient(tags, c) {
      assert DropUser(c) in UserOps(clients, desired, order);
    }
    forall c | c in adds ensures ValidClient(tags, c) {
      assert PutUser(c) in UserOps(clients, desired, order);
    }
  }

  lemma RuleOpsValid(tags: InboundTags, routes: map<string, RouteRule>, desired: seq<RouteRule>, order: seq<string>)
    requires forall op | op in RuleOps(routes, desired, order) :: ValidOp(tags, op)
    ensures forall r | r in RouteAdds(routes, Normalize(desired)) :: ValidRoute(r)
  {
    FootprintOfRoutes(tags, RouteAdds(routes, Normalize(desired)));
    forall r | r in RouteAdds(routes, Normalize(desired)) ensures ValidRoute(r) {
      assert PutRule(r) in RuleOps(routes, desired, order);
    }
  }

  lemma RuleOpsAfter(tags: InboundTags, users: map<Key, Account>, rules: seq<RouteRule>,
                     routes: map<string, RouteRule>, desired: seq<RouteRule>, order: seq<string>)
    requires KeyedByTag(routes) && IsOrderOf(order, StaleTags(routes, Normalize(desired)))
    ensures var ops, adds := RuleOps(routes, desired, order), RouteAdds(routes, Normalize(desired));
      && UsersAfter(tags, users, ops) == users
      && RulesAfter(rules, ops) == Without(rules, PlannedTags(routes, desired)) + adds
  {
    var removes, adds := Values(routes, order), RouteAdds(routes, Normalize(desired));
    RuleOpsFootprint(tags, routes, desired, order);
    RouteAddsDistinct(routes, Normalize(desired));
    AfterConcat(tags, users, rules, DropRules(removes), PutRules(adds));
    AfterDropRules(tags, users, rules, removes);
    AfterPutRules(tags, users, Without(rules, Tags(removes)), adds);
    WithoutTwice(rules, Tags(removes), Tags(adds));
  }
}
