/** The remote core the agent drives: its users and rules live in memory only and change one call at a time. */
module Runtime {
  import opened Model

  /** A user is addressed by the inbound that serves it and its email address. */
  datatype Key = Key(tag: string, email: string)

  datatype Account = Vless(id: string) | Vmess(id: string) | Trojan(password: string)

  datatype Runtime = Runtime(users: map<Key, Account>, rules: seq<RouteRule>, clock: nat)

  /** What becomes of one call.  A refused call has no effect; an unanswered one took effect although the
      caller sees an error (a timeout, say).  An answered call took effect, except that the core may choose
      to answer "not found" when asked to remove something it does not have. */
  datatype Fate = Refused | Unanswered | Answered(reportMissing: bool)

  /** The core may restart just before any call. */
  datatype Event = Event(restart: bool, fate: Fate)

  /** Everything the agent does not control: one event per call, and what a freshly started core holds. */
  datatype Env = Env(events: nat -> Event, bootUsers: map<Key, Account>, bootRules: seq<RouteRule>)

  datatype Reply = Done | Missing | Failed

  function EventAt(env: Env, i: nat): Event {
    env.events(i)
  }

  function Boot(env: Env, rt: Runtime): Runtime {
    Runtime(env.bootUsers, env.bootRules, rt.clock)
  }

  /** No restart lands before any of the calls numbered from..until. */
  ghost predicate Quiet(env: Env, from: nat, until: nat) {
    forall i | from <= i < until :: !EventAt(env, i).restart
  }

  /** What a stretch of calls builds on: the state it found or, if a restart lands in it, what the core boots with. */
  ghost function Base(env: Env, rt: Runtime, until: nat): Runtime {
    if Quiet(env, rt.clock, until) then rt else Boot(env, rt)
  }

  /** The state in which the next call is served. */
  function Tick(env: Env, rt: Runtime): Runtime {
    var now := if EventAt(env, rt.clock).restart then Boot(env, rt) else rt;
    now.(clock := rt.clock + 1)
  }

  function Settle(fate: Fate, before: Runtime, after: Runtime, present: bool): (Runtime, Reply) {
    match fate
    case Refused => (before, Failed)
    case Unanswered => (after, Failed)
    case Answered(reportMissing) => if reportMissing && !present then (before, Missing) else (after, Done)
  }

  function Fated(env: Env, rt: Runtime): Fate {
    EventAt(env, rt.clock).fate
  }

  function RemoveUserCall(env: Env, rt: Runtime, k: Key): (Runtime, Reply) {
    var now := Tick(env, rt);
    Settle(Fated(env, rt), now, now.(users := now.users - {k}), k in now.users)
  }

  function AddUserCall(env: Env, rt: Runtime, k: Key, a: Account): (Runtime, Reply) {
    var now := Tick(env, rt);
    Settle(Fated(env, rt), now, now.(users := now.users[k := a]), true)
  }

  function RemoveRuleCall(env: Env, rt: Runtime, tag: string): (Runtime, Reply) {
    var now := Tick(env, rt);
    Settle(Fated(env, rt), now, now.(rules := Without(now.rules, {tag})), tag in Tags(now.rules))
  }

  /** Rules are appended, whether or not a rule with the same tag is there already. */
  function AddRuleCall(env: Env, rt: Runtime, r: RouteRule): (Runtime, Reply) {
    var now := Tick(env, rt);
    Settle(Fated(env, rt), now, now.(rules := now.rules + [r]), true)
  }

  /** A step that can fail but changes nothing: opening the connection, building a rule's configuration. */
  function Attempt(env: Env, rt: Runtime): (Runtime, Reply) {
    var now := Tick(env, rt);
    Settle(Fated(env, rt), now, now, true)
  }

  // ---------- rule lists by tag ----------

  /** The rules whose tag is not in the given set, in their old order. */
  function Without(rules: seq<RouteRule>, tags: set<string>): seq<RouteRule> {
    if rules == [] then []
    else if rules[0].tag in tags then Without(rules[1..], tags)
    else [rules[0]] + Without(rules[1..], tags)
  }

  function RulesAt(rules: seq<RouteRule>, tag: string): seq<RouteRule> {
    if rules == [] then []
    else if rules[0].tag == tag then [rules[0]] + RulesAt(rules[1..], tag)
    else RulesAt(rules[1..], tag)
  }

  lemma {:induction false} WithoutConcat(xs: seq<RouteRule>, ys: seq<RouteRule>, tags: set<string>)
    ensures Without(xs + ys, tags) == Without(xs, tags) + Without(ys, tags)
  {
    if xs == [] {
      assert xs + ys == ys;
    } else {
      WithoutConcat(xs[1..], ys, tags);
      assert (xs + ys)[1..] == xs[1..] + ys;
    }
  }

  lemma {:induction false} WithoutTwice(xs: seq<RouteRule>, s: set<string>, t: set<string>)
    ensures Without(Without(xs, s), t) == Without(xs, s + t)
  {
    if xs != [] {
      WithoutTwice(xs[1..], s, t);
      if xs[0].tag !in s {
        assert Without(xs, s)[1..] == Without(xs[1..], s);
      }
    }
  }

  lemma {:induction false} WithoutAbsent(xs: seq<RouteRule>, tags: set<string>)
    requires Tags(xs) !! tags
    ensures Without(xs, tags) == xs
  {
    if xs != [] {
      assert xs == [xs[0]] + xs[1..];
      TagsCons(xs[0], xs[1..]);
      WithoutAbsent(xs[1..], tags);
    }
  }

  lemma {:induction false} TagsWithout(xs: seq<RouteRule>, tags: set<string>)
    ensures Tags(Without(xs, tags)) == Tags(xs) - tags
  {
    if xs != [] {
      assert xs == [xs[0]] + xs[1..];
      TagsCons(xs[0], xs[1..]);
      TagsCons(xs[0], Without(xs[1..], tags));
      TagsWithout(xs[1..], tags);
    }
  }

  lemma {:induction false} RulesAtConcat(xs: seq<RouteRule>, ys: seq<RouteRule>, tag: string)
    ensures RulesAt(xs + ys, tag) == RulesAt(xs, tag) + RulesAt(ys, tag)
  {
    if xs == [] {
      assert xs + ys == ys;
    } else {
      RulesAtConcat(xs[1..], ys, tag);
      assert (xs + ys)[1..] == xs[1..] + ys;
      var a, b := RulesAt(xs[1..], tag), RulesAt(ys, tag);
      assert [xs[0]] + (a + b) == ([xs[0]] + a) + b;
    }
  }

  /** Dropping other tags leaves the rules of a tag alone; dropping the tag itself leaves none. */
  lemma {:induction false} RulesAtWithout(xs: seq<RouteRule>, tags: set<string>, tag: string)
    ensures RulesAt(Without(xs, tags), tag) == if tag in tags then [] else RulesAt(xs, tag)
  {
    if xs != [] {
      RulesAtWithout(xs[1..], tags, tag);
      if xs[0].tag !in tags {
        assert Without(xs, tags)[1..] == Without(xs[1..], tags);
      }
    }
  }

  /** A list without repeated tags holds, for every tag, what its last-write-wins map says and no more. */
  lemma {:induction false} RulesAtDistinct(xs: seq<RouteRule>, tag: string)
    requires DistinctTags(xs)
    ensures RulesAt(xs, tag) == if tag in ByTag(xs) then [ByTag(xs)[tag]] else []
  {
    if xs != [] {
      assert xs == [xs[0]] + xs[1..];
      TagsCons(xs[0], xs[1..]);
      RulesAtDistinct(xs[1..], tag);
    }
  }

  // ---------- the core as an object ----------

  class Core {
    const env: Env
    var users: map<Key, Account>
    var rules: seq<RouteRule>
    var clock: nat

    constructor (env: Env, users: map<Key, Account>, rules: seq<RouteRule>)
      ensures this.env == env && Value() == Runtime(users, rules, 0)
    {
      this.env, this.users, this.rules, clock := env, users, rules, 0;
    }

    function Value(): Runtime
      reads this
    {
      Runtime(users, rules, clock)
    }

    /** Time moves to the next call; a restart may land first. */
    method Next() returns (fate: Fate)
      modifies this
      ensures Value() == Tick(env, old(Value())) && fate == Fated(env, old(Value()))
    {
      var event := EventAt(env, clock);
      if event.restart {
        Restart();
      }
      clock := clock + 1;
      return event.fate;
    }

    method Restart()
      modifies this
      ensures Value() == Boot(env, old(Value()))
    {
      users, rules := env.bootUsers, env.bootRules;
    }

    method RemoveUser(k: Key) returns (reply: Reply)
      modifies this
      ensures (Value(), reply) == RemoveUserCall(env, old(Value()), k)
    {
      var fate := Next();
      if fate.Refused? {
        return Failed;
      }
      if fate == Answered(true) && k !in users {
        return Missing;
      }
      users := users - {k};
      return if fate.Unanswered? then Failed else Done;
    }

    method AddUser(k: Key, a: Account) returns (reply: Reply)
      modifies this
      ensures (Value(), reply) == AddUserCall(env, old(Value()), k, a)
    {
      var fate := Next();
      if fate.Refused? {
        return Failed;
      }
      users := users[k := a];
      return if fate.Unanswered? then Failed else Done;
    }

    method RemoveRule(tag: string) returns (reply: Reply)
      modifies this
      ensures (Value(), reply) == RemoveRuleCall(env, old(Value()), tag)
    {
      var fate := Next();
      if fate.Refused? {
        return Failed;
      }
      if fate == Answered(true) && tag !in Tags(rules) {
        return Missing;
      }
      rules := Without(rules, {tag});
      return if fate.Unanswered? then Failed else Done;
    }

    method AddRule(r: RouteRule) returns (reply: Reply)
      modifies this
      ensures (Value(), reply) == AddRuleCall(env, old(Value()), r)
    {
      var fate := Next();
      if fate.Refused? {
        return Failed;
      }
      rules := rules + [r];
      return if fate.Unanswered? then Failed else Done;
    }

    method Try() returns (reply: Reply)
      modifies this
      ensures (Value(), reply) == Attempt(env, old(Value()))
    {
      var fate := Next();
      return if fate.Answered? then Done else Failed;
    }
  }
}
