/** Applying a difference to the core: what the calls do one by one, and what a whole batch amounts to. */
module Apply {
  import opened Model
  import opened Runtime
  import opened Diff

  datatype Error =
    | NoInbound(proto: string)
    | UnsupportedProto(proto: string)
    | TagRequired
    | OutboundRequired(tag: string)
    | NotFound
    | Unavailable
    | BuildFailed
    | StaleRemoval(tag: string, cause: Error)
    | PanelUnreachable
    | Cancelled

  function ErrorOf(reply: Reply): Option<Error> {
    match reply
    case Done => None
    case Missing => Some(NotFound)
    case Failed => Some(Unavailable)
  }

  type Outcome = (Runtime, Option<Error>)

  // ---------- one client, one rule ----------

  function RemoveUser(env: Env, tags: InboundTags, rt: Runtime, c: Client): Outcome {
    if TagFor(tags, c.proto) == "" then (rt, Some(NoInbound(c.proto)))
    else
      var (rt', reply) := RemoveUserCall(env, rt, KeyOf(tags, c));
      (rt', ErrorOf(reply))
  }

  /** The answer to the removal that precedes every addition is ignored. */
  function AddUser(env: Env, tags: InboundTags, rt: Runtime, c: Client): Outcome {
    var rt1 := RemoveUser(env, tags, rt, c).0;
    match BuildUser(c)
    case None => (rt1, Some(UnsupportedProto(c.proto)))
    case Some(account) =>
      if TagFor(tags, c.proto) == "" then (rt1, Some(NoInbound(c.proto)))
      else
        var (rt2, reply) := AddUserCall(env, rt1, KeyOf(tags, c), account);
        (rt2, ErrorOf(reply))
  }

  function RemoveRoute(env: Env, rt: Runtime, r: RouteRule): Outcome {
    if r.tag == "" then (rt, Some(TagRequired))
    else
      var (rt', reply) := RemoveRuleCall(env, rt, r.tag);
      (rt', ErrorOf(reply))
  }

  function CheckRoute(r: RouteRule): Option<Error> {
    if r.tag == "" then Some(TagRequired)
    else if r.outboundTag == "" && r.balancerTag == "" then Some(OutboundRequired(r.tag))
    else None
  }

  /** "Not found" is the only answer to the preceding removal that is tolerated. */
  function AddRoute(env: Env, rt: Runtime, r: RouteRule): Outcome {
    var (rt1, err) := RemoveRoute(env, rt, r);
    if err.Some? && err.value != NotFound then (rt1, Some(StaleRemoval(r.tag, err.value)))
    else if CheckRoute(r).Some? then (rt1, CheckRoute(r))
    else
      var (rt2, built) := Attempt(env, rt1);
      if built != Done then (rt2, Some(BuildFailed))
      else
        var (rt3, reply) := AddRuleCall(env, rt2, r);
        (rt3, ErrorOf(reply))
  }

  // ---------- batches ----------

  datatype Op = DropUser(c: Client) | PutUser(c: Client) | DropRule(r: RouteRule) | PutRule(r: RouteRule)

  function Exec(env: Env, tags: InboundTags, rt: Runtime, op: Op): (r: Outcome)
    ensures r.0.clock >= rt.clock
  {
    match op
    case DropUser(c) => RemoveUser(env, tags, rt, c)
    case PutUser(c) => AddUser(env, tags, rt, c)
    case DropRule(r) => RemoveRoute(env, rt, r)
    case PutRule(r) => AddRoute(env, rt, r)
  }

  /** A batch stops at the first operation that reports an error. */
  function RunOps(env: Env, tags: InboundTags, rt: Runtime, ops: seq<Op>): (r: Outcome)
    ensures r.0.clock >= rt.clock
    decreases ops
  {
    if ops == [] then (rt, None)
    else
      var (rt1, err) := Exec(env, tags, rt, ops[0]);
      if err.Some? then (rt1, err) else RunOps(env, tags, rt1, ops[1..])
  }

  lemma RunStep(env: Env, tags: InboundTags, rt: Runtime, op: Op, rest: seq<Op>)
    ensures RunOps(env, tags, rt, [op] + rest) ==
      var (rt1, err) := Exec(env, tags, rt, op);
      if err.Some? then (rt1, err) else RunOps(env, tags, rt1, rest)
  {
    assert ([op] + rest)[1..] == rest;
  }

  datatype Applied = Applied(rt: Runtime, changed: bool, err: Option<Error>)

  /** Nothing to do means no connection either. */
  function ApplyOps(env: Env, tags: InboundTags, rt: Runtime, ops: seq<Op>): (a: Applied)
    ensures a.rt.clock >= rt.clock
  {
    if ops == [] then Applied(rt, false, None)
    else
      var (rt1, dialled) := Attempt(env, rt);
      if dialled != Done then Applied(rt1, false, Some(Unavailable))
      else
        var (rt2, err) := RunOps(env, tags, rt1, ops);
        Applied(rt2, err.None?, err)
  }

  /** Clients first; rules only if the clients went through. */
  function State(env: Env, tags: InboundTags, rt: Runtime, userOps: seq<Op>, ruleOps: seq<Op>): (a: Applied)
    ensures a.rt.clock >= rt.clock
  {
    var clients := ApplyOps(env, tags, rt, userOps);
    if clients.err.Some? then clients
    else
      var routes := ApplyOps(env, tags, clients.rt, ruleOps);
      Applied(routes.rt, clients.changed || routes.changed, routes.err)
  }

  /** A call reports a change exactly when it had something to do and did it: for clients and rules, for clients alone
      when the rules failed, and never when the clients failed, after which no rule is tried. */
  lemma StateChangedIff(env: Env, tags: InboundTags, rt: Runtime, userOps: seq<Op>, ruleOps: seq<Op>)
    ensures
      var s, clients := State(env, tags, rt, userOps, ruleOps), ApplyOps(env, tags, rt, userOps);
      && (s.err.None? ==> (s.changed <==> userOps != [] || ruleOps != []))
      && (s.err.Some? ==> (s.changed <==> userOps != [] && clients.err.None?))
      && (clients.err.Some? ==> s.err == clients.err && s.rt == clients.rt)
  {
    hide RunOps, Attempt;
  }

  function DropUsers(cs: seq<Client>): seq<Op> {
    if cs == [] then [] else [DropUser(cs[0])] + DropUsers(cs[1..])
  }

  function PutUsers(cs: seq<Client>): seq<Op> {
    if cs == [] then [] else [PutUser(cs[0])] + PutUsers(cs[1..])
  }

  function DropRules(rs: seq<RouteRule>): seq<Op> {
    if rs == [] then [] else [DropRule(rs[0])] + DropRules(rs[1..])
  }

  function PutRules(rs: seq<RouteRule>): seq<Op> {
    if rs == [] then [] else [PutRule(rs[0])] + PutRules(rs[1..])
  }

  // ---------- what a batch is meant to do ----------

  function UserEffect(tags: InboundTags, users: map<Key, Account>, op: Op): map<Key, Account> {
    match op
    case DropUser(c) => users - {KeyOf(tags, c)}
    case PutUser(c) => if BuildUser(c).Some? then users[KeyOf(tags, c) := BuildUser(c).value] else users
    case _ => users
  }

  function RuleEffect(rules: seq<RouteRule>, op: Op): seq<RouteRule> {
    match op
    case DropRule(r) => Without(rules, {r.tag})
    case PutRule(r) => Without(rules, {r.tag}) + [r]
    case _ => rules
  }

  function UsersAfter(tags: InboundTags, users: map<Key, Account>, ops: seq<Op>): map<Key, Account>
    decreases ops
  {
    if ops == [] then users else UsersAfter(tags, UserEffect(tags, users, ops[0]), ops[1..])
  }

  function RulesAfter(rules: seq<RouteRule>, ops: seq<Op>): seq<RouteRule>
    decreases ops
  {
    if ops == [] then rules else RulesAfter(RuleEffect(rules, ops[0]), ops[1..])
  }

  predicate ValidClient(tags: InboundTags, c: Client) {
    TagFor(tags, c.proto) != ""
  }

  predicate ValidRoute(r: RouteRule) {
    CheckRoute(r).None?
  }

  /** What an operation checks locally, before it calls the core. */
  predicate ValidOp(tags: InboundTags, op: Op) {
    match op
    case DropUser(c) => ValidClient(tags, c)
    case PutUser(c) => ValidClient(tags, c)
    case DropRule(r) => r.tag != ""
    case PutRule(r) => ValidRoute(r)
  }

  function OpKey(tags: InboundTags, op: Op): set<Key> {
    if op.DropUser? || op.PutUser? then {KeyOf(tags, op.c)} else {}
  }

  function OpTag(op: Op): set<string> {
    if op.DropRule? || op.PutRule? then {op.r.tag} else {}
  }

  function OpKeys(tags: InboundTags, ops: seq<Op>): set<Key> {
    if ops == [] then {} else OpKey(tags, ops[0]) + OpKeys(tags, ops[1..])
  }

  function OpTags(ops: seq<Op>): set<string> {
    if ops == [] then {} else OpTag(ops[0]) + OpTags(ops[1..])
  }

  lemma UserExecOk(env: Env, tags: InboundTags, rt: Runtime, op: Op)
    requires op.DropUser? || op.PutUser?
    requires Exec(env, tags, rt, op).1.None?
    ensures ValidOp(tags, op)
    ensures var rt' := Exec(env, tags, rt, op).0;
      Quiet(env, rt.clock, rt'.clock) ==> rt'.users == UserEffect(tags, rt.users, op) && rt'.rules == rt.rules
  {
    if op.PutUser? {
      var k, a := KeyOf(tags, op.c), BuildUser(op.c).value;
      assert (rt.users - {k})[k := a] == rt.users[k := a];
    }
  }

  lemma RemoveRouteOk(env: Env, rt: Runtime, r: RouteRule)
    requires Quiet(env, rt.clock, RemoveRoute(env, rt, r).0.clock)
    requires var err := RemoveRoute(env, rt, r).1; err.None? || err.value == NotFound
    ensures var rt' := RemoveRoute(env, rt, r).0;
      r.tag != "" && rt'.users == rt.users && rt'.rules == Without(rt.rules, {r.tag})
  {
    if r.tag !in Tags(rt.rules) {
      WithoutAbsent(rt.rules, {r.tag});
    }
  }

  lemma RuleExecOk(env: Env, tags: InboundTags, rt: Runtime, op: Op)
    requires op.DropRule? || op.PutRule?
    requires Exec(env, tags, rt, op).1.None?
    ensures ValidOp(tags, op)
    ensures var rt' := Exec(env, tags, rt, op).0;
      Quiet(env, rt.clock, rt'.clock) ==> rt'.users == rt.users && rt'.rules == RuleEffect(rt.rules, op)
  {
    var rt' := Exec(env, tags, rt, op).0;
    if Quiet(env, rt.clock, rt'.clock) {
      RemoveRouteOk(env, rt, op.r);
    }
  }

  // ---------- what a batch leaves alone ----------

  /** Outside these keys and tags the core holds what it held before or, after a restart, what it boots with. */
  ghost predicate Framed(env: Env, rt: Runtime, rt': Runtime, keys: set<Key>, names: set<string>) {
    && rt'.clock >= rt.clock
    && rt'.users - keys == Base(env, rt, rt'.clock).users - keys
    && Without(rt'.rules, names) == Without(Base(env, rt, rt'.clock).rules, names)
  }

  lemma FramedStep(env: Env, rt: Runtime, rt1: Runtime, rt2: Runtime, some: set<Key>, more: set<Key>,
                   someNames: set<string>, moreNames: set<string>)
    requires Framed(env, rt, rt1, some, someNames) && Framed(env, rt1, rt2, more, moreNames)
    ensures Framed(env, rt, rt2, some + more, someNames + moreNames)
  {
    var keys, names := some + more, someNames + moreNames;
    var base1, base2, base := Base(env, rt, rt1.clock), Base(env, rt1, rt2.clock), Base(env, rt, rt2.clock);
    assert (base2 == rt1 && base == base1) || (base2.users == base.users && base2.rules == base.rules);
    hide Base, Without;
    SubtractMore(rt1.users, base1.users, some, keys);
    SubtractMore(rt2.users, base2.users, more, keys);
    WithoutMore(rt1.rules, base1.rules, someNames, names);
    WithoutMore(rt2.rules, base2.rules, moreNames, names);
  }

  lemma FramedSame(env: Env, rt: Runtime)
    ensures Framed(env, rt, rt, {}, {})
  {
  }

  lemma UserCallFramed(env: Env, rt: Runtime, k: Key, account: Account)
    ensures Framed(env, rt, RemoveUserCall(env, rt, k).0, {k}, {})
    ensures Framed(env, rt, AddUserCall(env, rt, k, account).0, {k}, {})
  {
  }

  lemma RuleCallFramed(env: Env, rt: Runtime, r: RouteRule)
    ensures Framed(env, rt, RemoveRuleCall(env, rt, r.tag).0, {}, {r.tag})
    ensures Framed(env, rt, AddRuleCall(env, rt, r).0, {}, {r.tag})
  {
    SameElsewhere(rt.rules, r);
    SameElsewhere(env.bootRules, r);
    hide Without;
  }

  lemma AttemptFramed(env: Env, rt: Runtime)
    ensures Framed(env, rt, Attempt(env, rt).0, {}, {})
  {
  }

  lemma SameElsewhere(xs: seq<RouteRule>, r: RouteRule)
    ensures Without(xs + [r], {r.tag}) == Without(xs, {r.tag})
    ensures Without(Without(xs, {r.tag}), {r.tag}) == Without(xs, {r.tag})
  {
    WithoutTwice(xs, {r.tag}, {r.tag});
    assert {r.tag} + {r.tag} == {r.tag};
    WithoutConcat(xs, [r], {r.tag});
    assert Without(xs, {r.tag}) + [] == Without(xs, {r.tag});
  }

  lemma UserExecFrame(env: Env, tags: InboundTags, rt: Runtime, op: Op)
    requires op.DropUser? || op.PutUser?
    ensures Framed(env, rt, Exec(env, tags, rt, op).0, OpKey(tags, op), {})
  {
    var k, rt1 := KeyOf(tags, op.c), RemoveUser(env, tags, rt, op.c).0;
    FramedSame(env, rt);
    FramedWiden(env, rt, rt, {k}, {});
    assert Framed(env, rt, rt1, {k}, {}) by {
      UserCallFramed(env, rt, k, Vless(""));
      hide Framed, RemoveUserCall;
    }
    if op.PutUser? && BuildUser(op.c).Some? {
      UserCallFramed(env, rt1, k, BuildUser(op.c).value);
      FramedStep(env, rt, rt1, AddUserCall(env, rt1, k, BuildUser(op.c).value).0, {k}, {k}, {}, {});
      assert {k} + {k} == {k};
    }
    hide Framed, RemoveUser, AddUserCall;
  }

  lemma FramedWiden(env: Env, rt: Runtime, rt': Runtime, keys: set<Key>, names: set<string>)
    requires Framed(env, rt, rt', {}, {})
    ensures Framed(env, rt, rt', keys, names)
  {
    var base := Base(env, rt, rt'.clock);
    SubtractMore(rt'.users, base.users, {}, keys);
    WithoutMore(rt'.rules, base.rules, {}, names);
  }

  lemma RemoveRouteFramed(env: Env, rt: Runtime, r: RouteRule)
    ensures Framed(env, rt, RemoveRoute(env, rt, r).0, {}, {r.tag})
  {
    FramedSame(env, rt);
    FramedWiden(env, rt, rt, {}, {r.tag});
    RuleCallFramed(env, rt, r);
    hide Framed, RemoveRuleCall;
  }

  lemma AddRouteFramed(env: Env, rt: Runtime, r: RouteRule)
    ensures Framed(env, rt, AddRoute(env, rt, r).0, {}, {r.tag})
  {
    var rt1 := RemoveRoute(env, rt, r).0;
    var rt2 := Attempt(env, rt1).0;
    var rt3 := AddRuleCall(env, rt2, r).0;
    var nobody: set<Key>, names := {}, {r.tag};
    assert nobody + nobody == nobody && names + {} == names && names + names == names;
    hide Framed, RemoveRoute, Attempt, AddRuleCall;
    RemoveRouteFramed(env, rt, r);
    AttemptFramed(env, rt1);
    FramedStep(env, rt, rt1, rt2, nobody, nobody, names, {});
    RuleCallFramed(env, rt2, r);
    FramedStep(env, rt, rt2, rt3, nobody, nobody, names, names);
  }

  /** Whatever becomes of an operation, it leaves the rest of the core alone. */
  lemma ExecFrame(env: Env, tags: InboundTags, rt: Runtime, op: Op)
    ensures Framed(env, rt, Exec(env, tags, rt, op).0, OpKey(tags, op), OpTag(op))
  {
    if op.DropUser? || op.PutUser? {
      UserExecFrame(env, tags, rt, op);
    } else {
      RemoveRouteFramed(env, rt, op.r);
      AddRouteFramed(env, rt, op.r);
    }
    hide Framed, RemoveUser, AddUser, RemoveRoute, AddRoute;
  }

  /** A batch that succeeds had only locally valid operations and, unless the core restarted meanwhile,
      did exactly what it was meant to do, whatever the core answered along the way. */
  lemma {:induction false} RunOk(env: Env, tags: InboundTags, rt: Runtime, ops: seq<Op>)
    requires RunOps(env, tags, rt, ops).1.None?
    ensures forall op | op in ops :: ValidOp(tags, op)
    ensures var rt' := RunOps(env, tags, rt, ops).0;
      Quiet(env, rt.clock, rt'.clock) ==>
        rt'.users == UsersAfter(tags, rt.users, ops) && rt'.rules == RulesAfter(rt.rules, ops)
    decreases ops
  {
    if ops != [] {
      if ops[0].DropUser? || ops[0].PutUser? {
        UserExecOk(env, tags, rt, ops[0]);
      } else {
        RuleExecOk(env, tags, rt, ops[0]);
      }
      RunOk(env, tags, Exec(env, tags, rt, ops[0]).0, ops[1..]);
      assert ops == [ops[0]] + ops[1..];
    }
  }

  /** A batch, successful or cut short anywhere, touches only the users and rules it names; if restarts land in
      it, the rest is what the core boots with. */
  lemma {:induction false} RunFrame(env: Env, tags: InboundTags, rt: Runtime, ops: seq<Op>)
    ensures Framed(env, rt, RunOps(env, tags, rt, ops).0, OpKeys(tags, ops), OpTags(ops))
    decreases ops
  {
    hide Framed;
    if ops == [] {
      FramedSame(env, rt);
    } else {
      var rt1, rest := Exec(env, tags, rt, ops[0]).0, ops[1..];
      hide Exec, OpKey, OpTag;
      ExecFrame(env, tags, rt, ops[0]);
      if Exec(env, tags, rt, ops[0]).1.Some? {
        FramedSame(env, rt1);
        FramedWiden(env, rt1, rt1, OpKeys(tags, rest), OpTags(rest));
      } else {
        RunFrame(env, tags, rt1, rest);
      }
      FramedStep(env, rt, rt1, RunOps(env, tags, rt, ops).0, OpKey(tags, ops[0]), OpKeys(tags, rest),
                 OpTag(ops[0]), OpTags(rest));
    }
  }

  lemma SubtractMore<K, V>(m: map<K, V>, n: map<K, V>, some: set<K>, all: set<K>)
    requires some <= all && m - some == n - some
    ensures m - all == n - all
  {
    assert m - all == (m - some) - all && n - all == (n - some) - all;
  }

  lemma WithoutMore(xs: seq<RouteRule>, ys: seq<RouteRule>, some: set<string>, all: set<string>)
    requires some <= all && Without(xs, some) == Without(ys, some)
    ensures Without(xs, all) == Without(ys, all)
  {
    WithoutTwice(xs, some, all);
    WithoutTwice(ys, some, all);
    assert some + all == all;
  }
}
