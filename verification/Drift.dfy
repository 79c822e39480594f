/** Drift: the users and rule tags on which the core differs from what the agent's maps say it holds. */
module Drift {
  import opened Model
  import opened Routes
  import opened Runtime
  import opened Diff
  import opened Apply
  import opened Batch

  /** The account the agent's map promises under a key. */
  function Expected(tags: InboundTags, clients: map<string, Client>, k: Key): Option<Account> {
    if k.tag != "" && k.email in clients && TagFor(tags, clients[k.email].proto) == k.tag
    then BuildUser(clients[k.email]) else None
  }

  function ExpectedRules(routes: map<string, RouteRule>, tag: string): seq<RouteRule> {
    if tag in routes then [routes[tag]] else []
  }

  ghost function UserDrift(tags: InboundTags, users: map<Key, Account>, clients: map<string, Client>): iset<Key> {
    iset k | Lookup(users, k) != Expected(tags, clients, k)
  }

  ghost function RuleDrift(rules: seq<RouteRule>, routes: map<string, RouteRule>): iset<string> {
    iset t | RulesAt(rules, t) != ExpectedRules(routes, t)
  }

  ghost function Infinite<T(!new)>(s: set<T>): iset<T> {
    iset x | x in s
  }

  /** Keys at which the additions end on an account that the last-write-wins map does not show.  This can
      happen only when the panel lists an email address more than once. */
  ghost function Shadowed(tags: InboundTags, current: map<string, Client>, desired: seq<Client>): iset<Key> {
    iset k: Key | k.tag != "" && LastPut(tags, ClientAdds(current, desired), k).Some?
          && LastPut(tags, ClientAdds(current, desired), k) != Expected(tags, ByEmail(desired), k)
  }

  lemma {:induction false} LastPutIsAnAdd(tags: InboundTags, adds: seq<Client>, k: Key)
    ensures LastPut(tags, adds, k).Some?
        ==> exists c :: c in adds && KeyOf(tags, c) == k && BuildUser(c) == LastPut(tags, adds, k)
    ensures LastPut(tags, adds, k).None? && k.tag != "" ==> k !in KeysOf(tags, adds)
  {
    if adds != [] {
      LastPutIsAnAdd(tags, adds[1..], k);
      assert adds == [adds[0]] + adds[1..];
    }
  }

  lemma DistinctNotShadowed(tags: InboundTags, current: map<string, Client>, desired: seq<Client>)
    requires DistinctEmails(desired)
    ensures Shadowed(tags, current, desired) == iset{}
  {
    var adds := ClientAdds(current, desired);
    forall k: Key | k.tag != "" && LastPut(tags, adds, k).Some?
      ensures LastPut(tags, adds, k) == Expected(tags, ByEmail(desired), k)
    {
      LastPutIsAnAdd(tags, adds, k);
      var c :| c in adds && KeyOf(tags, c) == k && BuildUser(c) == LastPut(tags, adds, k);
      ClientAddsAre(current, desired);
      var i :| 0 <= i < |desired| && desired[i] == c;
      ByEmailDistinct(desired, i);
    }
  }

  /** Outside the planned keys the old and the new map promise the same. */
  lemma UnplannedKeepExpectation(tags: InboundTags, current: map<string, Client>, desired: seq<Client>, k: Key)
    requires KeyedByEmail(current) && k !in PlannedKeys(tags, current, desired)
    ensures Expected(tags, ByEmail(desired), k) == Expected(tags, current, k)
  {
    ClientAddsAre(current, desired);
    var e, wanted := k.email, ByEmail(desired);
    if e in current {
      assert e in StaleEmails(current, desired) ==> KeyOf(tags, current[e]) in StaleKeys(tags, current, desired);
    }
    if e in wanted && NeedsAdd(current, wanted[e]) {
      assert KeyOf(tags, wanted[e]) in KeysOf(tags, ClientAdds(current, desired));
    }
  }

  /** A key whose user is only removed is promised to nobody. */
  lemma RemovedNotExpected(tags: InboundTags, current: map<string, Client>, desired: seq<Client>, k: Key)
    requires KeyedByEmail(current) && k in PlannedKeys(tags, current, desired)
    requires LastPut(tags, ClientAdds(current, desired), k).None?
    ensures Expected(tags, ByEmail(desired), k).None?
    ensures k.tag != "" ==> k in StaleKeys(tags, current, desired)
  {
    LastPutIsAnAdd(tags, ClientAdds(current, desired), k);
    ClientAddsAre(current, desired);
    var e, wanted := k.email, ByEmail(desired);
    assert e in wanted && NeedsAdd(current, wanted[e])
      ==> KeyOf(tags, wanted[e]) in KeysOf(tags, ClientAdds(current, desired));
  }

  // ---------- the differences as updates of the agent's own maps ----------

  function Updated(current: map<string, Client>, desired: seq<Client>): map<string, Client> {
    (current - StaleEmails(current, desired)) + ByEmail(ClientAdds(current, desired))
  }

  lemma {:induction false} WinnerAdded(current: map<string, Client>, desired: seq<Client>, e: string)
    requires e in ByEmail(desired) && NeedsAdd(current, ByEmail(desired)[e])
    ensures e in ByEmail(ClientAdds(current, desired))
    ensures ByEmail(ClientAdds(current, desired))[e] == ByEmail(desired)[e]
  {
    if e in ByEmail(desired[1..]) {
      WinnerAdded(current, desired[1..], e);
      assert NeedsAdd(current, desired[0]) ==> ClientAdds(current, desired)[1..] == ClientAdds(current, desired[1..]);
    } else {
      ClientAddsAre(current, desired[1..]);
      assert NeedsAdd(current, desired[0]) ==> ClientAdds(current, desired)[1..] == ClientAdds(current, desired[1..]);
    }
  }

  /** Removing and adding what the difference says yields the panel's last-write-wins map, up to the client
      comparison, exactly when no added client is overridden by a listed one that needs no adding. */
  lemma ClientDiffLaw(current: map<string, Client>, desired: seq<Client>)
    requires KeyedByEmail(current)
    ensures Updated(current, desired).Keys == Emails(desired)
    ensures (forall e | e in Emails(desired) :: EqualClient(Updated(current, desired)[e], ByEmail(desired)[e]))
       <==> (forall c | c in ClientAdds(current, desired) ::
              c.email in ByEmail(desired) && NeedsAdd(current, ByEmail(desired)[c.email]))
  {
    var adds, wanted, updated := ClientAdds(current, desired), ByEmail(desired), Updated(current, desired);
    ClientAddsAre(current, desired);
    forall e ensures e in updated <==> e in wanted {
      if e in wanted && e !in current {
        assert NeedsAdd(current, wanted[e]) && wanted[e] in adds;
      }
      if e in wanted && e in StaleEmails(current, desired) {
        assert NeedsAdd(current, wanted[e]) && wanted[e] in adds;
      }
    }
    forall e | e in wanted
      ensures EqualClient(updated[e], wanted[e]) <==> (e in Emails(adds) ==> NeedsAdd(current, wanted[e]))
    {
      if NeedsAdd(current, wanted[e]) {
        WinnerAdded(current, desired, e);
      } else if e in ByEmail(adds) {
        assert NeedsAdd(current, ByEmail(adds)[e]);
      }
    }
    forall c | c in adds ensures c.email in Emails(adds) && c.email in wanted {}
    forall e | e in Emails(adds) ensures exists c :: c in adds && c.email == e {}
  }

  /** Without repeated addresses that condition always holds, and differencing the result, or the panel's own
      map, with the list again finds nothing. */
  lemma ClientDiffSettles(current: map<string, Client>, desired: seq<Client>)
    requires DistinctEmails(desired)
    ensures forall c | c in ClientAdds(current, desired) ::
              c.email in ByEmail(desired) && NeedsAdd(current, ByEmail(desired)[c.email])
    ensures ClientAdds(ByEmail(desired), desired) == [] && StaleEmails(ByEmail(desired), desired) == {}
    ensures KeyedByEmail(current) ==>
      ClientAdds(Updated(current, desired), desired) == [] && StaleEmails(Updated(current, desired), desired) == {}
  {
    forall c | c in desired ensures ByEmail(desired)[c.email] == c {
      var i :| 0 <= i < |desired| && desired[i] == c;
      ByEmailDistinct(desired, i);
    }
    ClientAddsAre(current, desired);
    EqualMapsSettle(ByEmail(desired), desired);
    if KeyedByEmail(current) {
      ClientDiffLaw(current, desired);
      hide Updated;
      EqualMapsSettle(Updated(current, desired), desired);
    }
  }

  lemma EqualMapsSettle(m: map<string, Client>, desired: seq<Client>)
    requires m.Keys == Emails(desired)
    requires forall e | e in Emails(desired) :: EqualClient(m[e], ByEmail(desired)[e])
    requires forall c | c in desired :: c.email in ByEmail(desired) && ByEmail(desired)[c.email] == c
    ensures ClientAdds(m, desired) == [] && StaleEmails(m, desired) == {}
  {
    ClientAddsAre(m, desired);
    HasMember(ClientAdds(m, desired));
    forall c | c in desired ensures !NeedsAdd(m, c) {
      assert c.email in Emails(desired);
    }
  }

  lemma NormalIsItsMap(rules: seq<RouteRule>)
    ensures forall r | r in Normalize(rules) :: r.tag in ByTag(rules) && ByTag(rules)[r.tag] == r
    ensures forall t | t in ByTag(rules) :: ByTag(rules)[t] in Normalize(rules)
  {
    var normal := Normalize(rules);
    NormalizeKeepsMeaning(rules);
    forall r | r in normal ensures r.tag in ByTag(rules) && ByTag(rules)[r.tag] == r {
      var i :| 0 <= i < |normal| && normal[i] == r;
      ByTagDistinct(normal, i);
    }
    forall t | t in ByTag(rules) ensures ByTag(rules)[t] in normal {
      assert ByTag(normal)[t] in normal;
    }
  }

  function UpdatedRules(current: map<string, RouteRule>, desired: seq<RouteRule>): map<string, RouteRule> {
    (current - StaleTags(current, Normalize(desired))) + ByTag(RouteAdds(current, Normalize(desired)))
  }

  lemma RouteDiffAt(current: map<string, RouteRule>, desired: seq<RouteRule>, t: string)
    requires KeyedByTag(current)
    ensures t in UpdatedRules(current, desired) <==> t in ByTag(desired)
    ensures t in ByTag(desired) ==> UpdatedRules(current, desired)[t] == ByTag(desired)[t]
  {
    var normal, wanted := Normalize(desired), ByTag(desired);
    var adds := ByTag(RouteAdds(current, normal));
    NormalizeKeepsMeaning(desired);
    NormalIsItsMap(desired);
    RouteAddsAre(current, normal);
    if t in adds {
      assert adds[t] in normal;
    } else if t in wanted {
      assert wanted[t] in normal && wanted[t] !in RouteAdds(current, normal);
    }
  }

  /** For rules both hold of every list the panel can send, and exactly. */
  lemma RouteDiffLaw(current: map<string, RouteRule>, desired: seq<RouteRule>)
    requires KeyedByTag(current)
    ensures UpdatedRules(current, desired) == ByTag(desired)
  {
    hide UpdatedRules, ByTag;
    forall t: string {
      RouteDiffAt(current, desired, t);
    }
  }

  lemma RouteDiffSettles(desired: seq<RouteRule>)
    ensures RouteAdds(ByTag(desired), Normalize(desired)) == []
    ensures StaleTags(ByTag(desired), Normalize(desired)) == {}
  {
    NormalizeKeepsMeaning(desired);
    NormalIsItsMap(desired);
    RouteAddsAre(ByTag(desired), Normalize(desired));
    HasMember(RouteAdds(ByTag(desired), Normalize(desired)));
  }

  // ---------- the exact effect of one State call on drift ----------

  /** A successful call heals exactly the planned keys; the shadowed ones are the only new disagreements. */
  lemma UserDriftHealed(env: Env, tags: InboundTags, rt: Runtime,
                        clients: map<string, Client>, desired: seq<Client>, userOrder: seq<string>,
                        routes: map<string, RouteRule>, rules: seq<RouteRule>, ruleOrder: seq<string>)
    requires KeyedByEmail(clients) && IsOrderOf(userOrder, StaleEmails(clients, desired))
    requires KeyedByTag(routes) && IsOrderOf(ruleOrder, StaleTags(routes, Normalize(rules)))
    requires var s := State(env, tags, rt, UserOps(clients, desired, userOrder), RuleOps(routes, rules, ruleOrder));
      s.err.None? && Quiet(env, rt.clock, s.rt.clock)
    ensures
      var s := State(env, tags, rt, UserOps(clients, desired, userOrder), RuleOps(routes, rules, ruleOrder));
      UserDrift(tags, s.rt.users, ByEmail(desired))
        == UserDrift(tags, rt.users, clients) - Infinite(PlannedKeys(tags, clients, desired))
           + Shadowed(tags, clients, desired)
  {
    var s := State(env, tags, rt, UserOps(clients, desired, userOrder), RuleOps(routes, rules, ruleOrder));
    var adds := ClientAdds(clients, desired);
    forall k
      ensures k in UserDrift(tags, s.rt.users, ByEmail(desired))
        <==> (k in UserDrift(tags, rt.users, clients) && k !in PlannedKeys(tags, clients, desired))
             || k in Shadowed(tags, clients, desired)
    {
      StateOk(env, tags, rt, clients, desired, userOrder, routes, rules, ruleOrder, k);
      LastPutIsAnAdd(tags, adds, k);
      if k !in PlannedKeys(tags, clients, desired) {
        UnplannedKeepExpectation(tags, clients, desired, k);
      } else if LastPut(tags, adds, k).None? {
        RemovedNotExpected(tags, clients, desired, k);
      }
    }
  }

  lemma RuleDriftHealed(rules: seq<RouteRule>, routes: map<string, RouteRule>, desired: seq<RouteRule>)
    requires KeyedByTag(routes)
    ensures
      var after := Without(rules, PlannedTags(routes, desired)) + RouteAdds(routes, Normalize(desired));
      RuleDrift(after, ByTag(desired)) == RuleDrift(rules, routes) - Infinite(PlannedTags(routes, desired))
  {
    var planned, normal := PlannedTags(routes, desired), Normalize(desired);
    var adds, wanted := RouteAdds(routes, normal), ByTag(desired);
    NormalIsItsMap(desired);
    RouteAddsDistinct(routes, normal);
    RouteAddsAre(routes, normal);
    NormalizeKeepsMeaning(desired);
    forall t
      ensures t in RuleDrift(Without(rules, planned) + adds, wanted)
         <==> t in RuleDrift(rules, routes) && t !in planned
    {
      RulesAtConcat(Without(rules, planned), adds, t);
      RulesAtWithout(rules, planned, t);
      RulesAtDistinct(adds, t);
      if t in Tags(adds) {
        assert ByTag(adds)[t] in normal;
      } else {
        if t in wanted {
          assert wanted[t] in normal && wanted[t] !in adds;
        }
        assert RulesAt(Without(rules, planned), t) + [] == RulesAt(Without(rules, planned), t);
      }
    }
  }
}
