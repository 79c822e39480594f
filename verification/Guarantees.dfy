/** What the laws of the other modules mean for the core itself: which accounts and rules it holds, spelled out in the
    fields of the panel's entries and the configured inbounds. */
module Guarantees {
  import opened Model
  import opened Routes
  import opened Runtime
  import opened Diff
  import opened Apply
  import opened Batch
  import opened Drift
  import opened Reconciler
  import opened Runs
  import opened Limits
  import opened Progress
  import opened Resets

  // ---------- one client ----------

  /** A removal addresses the inbound of the client's protocol; without one there is no call at all. */
  lemma RemoveUserLaw(env: Env, tags: InboundTags, rt: Runtime, c: Client)
    ensures
      var (rt', err) := RemoveUser(env, tags, rt, c);
      && (c.proto !in {"vless", "vmess", "trojan"} ==> rt' == rt && err == Some(NoInbound(c.proto)))
      && (c.proto == "vless" && tags.vless == "" ==> rt' == rt && err == Some(NoInbound("vless")))
      && (c.proto == "vmess" && tags.vmess == "" ==> rt' == rt && err == Some(NoInbound("vmess")))
      && (c.proto == "trojan" && tags.trojan == "" ==> rt' == rt && err == Some(NoInbound("trojan")))
      && (err.None? && Quiet(env, rt.clock, rt'.clock) ==>
            && rt'.rules == rt.rules
            && (c.proto == "vless" ==> rt'.users == rt.users - {Key(tags.vless, c.email)})
            && (c.proto == "vmess" ==> rt'.users == rt.users - {Key(tags.vmess, c.email)})
            && (c.proto == "trojan" ==> rt'.users == rt.users - {Key(tags.trojan, c.email)}))
  {
    UserExecOkIfDone(env, tags, rt, DropUser(c));
  }

  lemma UserExecOkIfDone(env: Env, tags: InboundTags, rt: Runtime, op: Op)
    requires op.DropUser? || op.PutUser?
    ensures
      var (rt', err) := Exec(env, tags, rt, op);
      err.None? ==>
        && ValidOp(tags, op)
        && (Quiet(env, rt.clock, rt'.clock) ==> rt'.users == UserEffect(tags, rt.users, op) && rt'.rules == rt.rules)
  {
    if Exec(env, tags, rt, op).1.None? {
      UserExecOk(env, tags, rt, op);
    }
  }

  /** An addition stores the account of the client's protocol under its inbound; for any other protocol, or without
      an inbound, it fails before the first call. */
  lemma AddUserLaw(env: Env, tags: InboundTags, rt: Runtime, c: Client)
    ensures
      var (rt', err) := AddUser(env, tags, rt, c);
      && (c.proto !in {"vless", "vmess", "trojan"} ==> rt' == rt && err == Some(UnsupportedProto(c.proto)))
      && (c.proto == "vless" && tags.vless == "" ==> rt' == rt && err == Some(NoInbound("vless")))
      && (c.proto == "vmess" && tags.vmess == "" ==> rt' == rt && err == Some(NoInbound("vmess")))
      && (c.proto == "trojan" && tags.trojan == "" ==> rt' == rt && err == Some(NoInbound("trojan")))
      && (err.None? && Quiet(env, rt.clock, rt'.clock) ==>
            && rt'.rules == rt.rules
            && (c.proto == "vless" ==> rt'.users == rt.users[Key(tags.vless, c.email) := Vless(c.id)])
            && (c.proto == "vmess" ==> rt'.users == rt.users[Key(tags.vmess, c.email) := Vmess(c.id)])
            && (c.proto == "trojan" ==> rt'.users == rt.users[Key(tags.trojan, c.email) := Trojan(c.password)]))
  {
    UserExecOkIfDone(env, tags, rt, PutUser(c));
  }

  /** A core that answers every call accepts exactly the clients of a configured protocol. */
  lemma AddUserSucceedsIff(env: Env, tags: InboundTags, rt: Runtime, c: Client, strict: bool)
    requires Steady(env, strict, rt.clock)
    ensures AddUser(env, tags, rt, c).1.None?
       <==> || (c.proto == "vless" && tags.vless != "") || (c.proto == "vmess" && tags.vmess != "")
            || (c.proto == "trojan" && tags.trojan != "")
  {
    PutUserIff(env, tags, rt, c, strict);
  }

  // ---------- one rule ----------

  /** A rule that is added has a tag and leads somewhere; one that does not is refused after the removal that comes
      first, and is not added.  A removal needs a tag, or there is no call. */
  lemma RouteLaw(env: Env, rt: Runtime, r: RouteRule)
    ensures
      var (rt1, removal) := RemoveRoute(env, rt, r);
      var (rt2, addition) := AddRoute(env, rt, r);
      && (r.tag == "" ==> rt1 == rt && removal == Some(TagRequired) && rt2 == rt && addition.Some?)
      && (addition.None? ==> r.tag != "" && (r.outboundTag != "" || r.balancerTag != ""))
      && (r.outboundTag == "" && r.balancerTag == "" ==> addition.Some? && rt2 == rt1)
      && (r.tag != "" && r.outboundTag == "" && r.balancerTag == "" && (removal.None? || removal == Some(NotFound)) ==>
            addition == Some(OutboundRequired(r.tag)))
  {
  }

  lemma AddRouteSucceedsIff(env: Env, rt: Runtime, r: RouteRule, strict: bool)
    requires Steady(env, strict, rt.clock)
    ensures AddRoute(env, rt, r).1.None? <==> r.tag != "" && (r.outboundTag != "" || r.balancerTag != "")
  {
    PutRuleIff(env, InboundTags("", "", ""), rt, r, strict);
  }

  // ---------- what is remembered ----------

  /** Each remembered client is filed under its address and has a configured inbound, and each remembered rule is
      filed under its tag and leads somewhere. */
  ghost predicate Recorded(tags: InboundTags, clients: map<string, Client>, routes: map<string, RouteRule>) {
    && (forall e | e in clients :: clients[e].email == e && (
          || (clients[e].proto == "vless" && tags.vless != "")
          || (clients[e].proto == "vmess" && tags.vmess != "")
          || (clients[e].proto == "trojan" && tags.trojan != "")))
    && (forall t | t in routes ::
          routes[t].tag == t && t != "" && (routes[t].outboundTag != "" || routes[t].balancerTag != ""))
  }

  lemma RecordedIff(tags: InboundTags, w: World)
    ensures Consistent(tags, w) <==> Recorded(tags, w.clients, w.routes)
  {
  }

  /** That holds along every run, from the empty store or from any that satisfies it. */
  lemma {:induction false} RunRecorded(env: Env, tags: InboundTags, w: World, steps: seq<Step>)
    requires Recorded(tags, w.clients, w.routes) && LegalRun(env, tags, w, steps)
    ensures Recorded(tags, After(env, tags, w, steps).clients, After(env, tags, w, steps).routes)
    ensures Recorded(tags, map[], map[])
    decreases steps
  {
    if steps != [] {
      var step := steps[0];
      RecordedIff(tags, w);
      RecordedIff(tags, Next(env, tags, w, step));
      if step.Synchronize? {
        SyncConsistent(env, tags, w, step.assumeEmpty, step.response, step.userOrder, step.ruleOrder);
      }
      hide Sync, Recorded;
      RunRecorded(env, tags, Next(env, tags, w, step), steps[1..]);
    }
  }

  // ---------- what agreement means ----------

  /** This user is there exactly if some client has this address, and its protocol this inbound; with its account. */
  ghost predicate HoldsAccount(tags: InboundTags, users: map<Key, Account>, clients: map<string, Client>, k: Key) {
    && (k in users <==>
          && k.tag != "" && k.email in clients
          && (|| (clients[k.email].proto == "vless" && k.tag == tags.vless)
              || (clients[k.email].proto == "vmess" && k.tag == tags.vmess)
              || (clients[k.email].proto == "trojan" && k.tag == tags.trojan)))
    && (k in users ==>
          var c := clients[k.email];
          users[k] == if c.proto == "vless" then Vless(c.id)
                      else if c.proto == "vmess" then Vmess(c.id) else Trojan(c.password))
  }

  ghost predicate HoldsAccounts(tags: InboundTags, users: map<Key, Account>, clients: map<string, Client>) {
    forall k: Key :: HoldsAccount(tags, users, clients, k)
  }

  lemma HoldsAccountIff(tags: InboundTags, users: map<Key, Account>, clients: map<string, Client>, k: Key)
    ensures HoldsAccount(tags, users, clients, k) <==> Lookup(users, k) == Expected(tags, clients, k)
  {
  }

  /** Every rule, and no other, and none of them twice. */
  ghost predicate HoldsRules(rules: seq<RouteRule>, routes: map<string, RouteRule>) {
    && (forall i, j | 0 <= i < j < |rules| :: rules[i].tag != rules[j].tag)
    && (forall r :: r in rules <==> r.tag in routes && routes[r.tag] == r)
  }

  /** Agent and core agree exactly when the core holds the accounts of the remembered clients and the remembered
      rules. */
  lemma AgreementIff(tags: InboundTags, w: World)
    requires KeyedByTag(w.routes)
    ensures NoDrift(tags, w) <==> HoldsAccounts(tags, w.rt.users, w.clients) && HoldsRules(w.rt.rules, w.routes)
  {
    UsersAgreeIff(tags, w);
    RulesAgreeIff(w);
    hide Keys, Names, HoldsAccounts, HoldsRules;
  }

  lemma UsersAgreeIff(tags: InboundTags, w: World)
    ensures Keys(tags, w) == iset{} <==> HoldsAccounts(tags, w.rt.users, w.clients)
  {
    var users, clients := w.rt.users, w.clients;
    hide HoldsAccount, Expected, Lookup;
    forall k ensures HoldsAccount(tags, users, clients, k) <==> k !in Keys(tags, w) {
      HoldsAccountIff(tags, users, clients, k);
    }
  }

  lemma {:induction false} RulesAtAre(rules: seq<RouteRule>, t: string)
    ensures forall r :: r in RulesAt(rules, t) <==> r in rules && r.tag == t
    ensures DistinctTags(rules) ==> |RulesAt(rules, t)| <= 1
    decreases rules
  {
    if rules != [] {
      assert rules == [rules[0]] + rules[1..];
      TagsCons(rules[0], rules[1..]);
      RulesAtAre(rules[1..], t);
      if DistinctTags(rules) && rules[0].tag == t {
        HasMember(RulesAt(rules[1..], t));
      }
    }
  }

  lemma {:induction false} OneEach(rules: seq<RouteRule>)
    requires forall t :: |RulesAt(rules, t)| <= 1
    ensures DistinctTags(rules)
    decreases rules
  {
    if rules != [] {
      var head, tail := rules[0], rules[1..];
      assert rules == [head] + tail;
      TagsCons(head, tail);
      forall t ensures |RulesAt(tail, t)| <= 1 {
        assert |RulesAt(rules, t)| <= 1;
      }
      OneEach(tail);
      assert |RulesAt(rules, head.tag)| == 1 + |RulesAt(tail, head.tag)|;
      RulesAtAre(tail, head.tag);
    }
  }

  lemma RulesAgreeIff(w: World)
    requires KeyedByTag(w.routes)
    ensures Names(w) == iset{} <==> HoldsRules(w.rt.rules, w.routes)
  {
    var rules := w.rt.rules;
    if Names(w) == iset{} {
      forall t ensures RulesAt(rules, t) == ExpectedRules(w.routes, t) {
        assert t !in Names(w);
      }
      OneEach(rules);
      forall r ensures r in rules <==> r.tag in w.routes && w.routes[r.tag] == r {
        RulesAtAre(rules, r.tag);
        assert r in rules <==> r in RulesAt(rules, r.tag);
      }
    }
    if HoldsRules(rules, w.routes) {
      forall t ensures t !in Names(w) {
        RulesAtAre(rules, t);
        HasMember(RulesAt(rules, t));
        if t in w.routes {
          assert w.routes[t] in RulesAt(rules, t);
        }
      }
    }
  }

  // ---------- what a reset leaves behind ----------

  /** After an undisturbed successful reset without repeated addresses every listed client has a known protocol and
      a configured inbound, and under that inbound its account. */
  lemma ListedAccounts(env: Env, tags: InboundTags, w: World, ds: PanelState, c: Client)
    requires DistinctEmails(ds.clients) && c in ds.clients
    requires var (w', err) := Sync(env, tags, w, true, Some(ds), [], []);
      err.None? && Quiet(env, w.rt.clock, w'.rt.clock)
    ensures
      var users := Sync(env, tags, w, true, Some(ds), [], []).0.rt.users;
      && c.proto in {"vless", "vmess", "trojan"}
      && (c.proto == "vless" ==>
            tags.vless != "" && Key(tags.vless, c.email) in users && users[Key(tags.vless, c.email)] == Vless(c.id))
      && (c.proto == "vmess" ==>
            tags.vmess != "" && Key(tags.vmess, c.email) in users && users[Key(tags.vmess, c.email)] == Vmess(c.id))
      && (c.proto == "trojan" ==>
            tags.trojan != "" && Key(tags.trojan, c.email) in users
            && users[Key(tags.trojan, c.email)] == Trojan(c.password))
  {
    var k, i := KeyOf(tags, c), PositionOfClient(ds.clients, c);
    assert k in KeysOf(tags, ds.clients);
    ResetKeysValid(env, tags, w, ds, k);
    ResetExact(env, tags, w, ds);
    ByEmailDistinct(ds.clients, i);
    hide Sync;
    var users := Sync(env, tags, w, true, Some(ds), [], []).0.rt.users;
    assert Lookup(users, k) == Overridden(tags, w.rt.users, ds.clients, k);
  }

  ghost function PositionOfClient(cs: seq<Client>, c: Client): (i: nat)
    requires c in cs
    ensures i < |cs| && cs[i] == c
  {
    var i :| 0 <= i < |cs| && cs[i] == c;
    i
  }
}
