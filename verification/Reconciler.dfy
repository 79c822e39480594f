/** The reconciler as a state machine: one panel response at a time, against a core that may fail or restart. */
module Reconciler {
  import opened Model
  import opened Routes
  import opened Runtime
  import opened Diff
  import opened Apply
  import opened Batch
  import opened Drift

  /** What the agent remembers of the last response it applied, and the core itself. */
  datatype World = World(version: int, clients: map<string, Client>, routes: map<string, RouteRule>, rt: Runtime)

  /** The fast path: same version, same sizes, every listed entry equal to the remembered one. */
  predicate IsUnchanged(w: World, version: int, clients: seq<Client>, rules: seq<RouteRule>) {
    && version == w.version && |clients| == |w.clients| && |rules| == |w.routes|
    && (forall c | c in clients :: !NeedsAdd(w.clients, c))
    && (forall r | r in rules :: !NeedsRule(w.routes, r))
  }

  predicate TakesFastPath(w: World, assumeEmpty: bool, ds: PanelState) {
    !assumeEmpty && IsUnchanged(w, ds.version, ds.clients, Normalize(ds.routes))
  }

  /** What a synchronisation compares the response with: nothing, after a reset of the core. */
  function Clients(w: World, assumeEmpty: bool): map<string, Client> {
    if assumeEmpty then map[] else w.clients
  }

  function Rules(w: World, assumeEmpty: bool): map<string, RouteRule> {
    if assumeEmpty then map[] else w.routes
  }

  function SlowSync(env: Env, tags: InboundTags, w: World, assumeEmpty: bool, ds: PanelState,
                    userOrder: seq<string>, ruleOrder: seq<string>): (r: (World, Option<Error>))
    ensures r.0.rt.clock >= w.rt.clock
  {
    var rules := Normalize(ds.routes);
    var s := State(env, tags, w.rt, UserOps(Clients(w, assumeEmpty), ds.clients, userOrder),
                   RuleOps(Rules(w, assumeEmpty), rules, ruleOrder));
    if s.err.Some? then (w.(rt := s.rt), s.err)
    else (World(ds.version, ByEmail(ds.clients), ByTag(rules), s.rt), None)
  }

  function Sync(env: Env, tags: InboundTags, w: World, assumeEmpty: bool, response: Option<PanelState>,
                userOrder: seq<string>, ruleOrder: seq<string>): (r: (World, Option<Error>))
    ensures r.0.rt.clock >= w.rt.clock
  {
    if response.None? then (w, Some(PanelUnreachable))
    else if TakesFastPath(w, assumeEmpty, response.value) then (w, None)
    else SlowSync(env, tags, w, assumeEmpty, response.value, userOrder, ruleOrder)
  }

  /** The orders in which the difference with this response may have been walked. */
  ghost predicate LegalOrders(w: World, assumeEmpty: bool, ds: PanelState,
                              userOrder: seq<string>, ruleOrder: seq<string>) {
    && IsOrderOf(userOrder, StaleEmails(Clients(w, assumeEmpty), ds.clients))
    && IsOrderOf(ruleOrder, StaleTags(Rules(w, assumeEmpty), Normalize(Normalize(ds.routes))))
  }

  ghost predicate LegalSync(w: World, assumeEmpty: bool, response: Option<PanelState>,
                            userOrder: seq<string>, ruleOrder: seq<string>) {
    response.None? || TakesFastPath(w, assumeEmpty, response.value)
    || LegalOrders(w, assumeEmpty, response.value, userOrder, ruleOrder)
  }

  /** Every remembered entry is filed under its own name and would pass the local checks of a removal. */
  ghost predicate Consistent(tags: InboundTags, w: World) {
    && KeyedByEmail(w.clients) && KeyedByTag(w.routes)
    && (forall e | e in w.clients :: ValidClient(tags, w.clients[e]))
    && (forall t | t in w.routes :: ValidRoute(w.routes[t]))
  }

  ghost function Keys(tags: InboundTags, w: World): iset<Key> {
    UserDrift(tags, w.rt.users, w.clients)
  }

  ghost function Names(w: World): iset<string> {
    RuleDrift(w.rt.rules, w.routes)
  }

  ghost predicate NoDrift(tags: InboundTags, w: World) {
    Keys(tags, w) == iset{} && Names(w) == iset{}
  }

  // ---------- the fast path ----------

  lemma SameSizeSubset<T>(a: set<T>, b: set<T>)
    requires a <= b
    ensures |a| == |b| <==> a == b
    ensures |a| != |b| ==> b - a != {}
  {
    assert |b - a| == |b| - |a|;
  }

  lemma {:induction false} CountTags(rs: seq<RouteRule>)
    requires DistinctTags(rs)
    ensures |Tags(rs)| == |rs|
  {
    if rs != [] {
      assert rs == [rs[0]] + rs[1..];
      TagsCons(rs[0], rs[1..]);
      CountTags(rs[1..]);
    }
  }

  lemma SameClients(clients: map<string, Client>, desired: seq<Client>)
    requires KeyedByEmail(clients) && clients.Keys == Emails(desired)
    requires forall c | c in desired :: !NeedsAdd(clients, c)
    ensures StaleEmails(clients, desired) == {} && ByEmail(desired) == clients
  {
    var wanted := ByEmail(desired);
    forall e | e in clients ensures wanted[e] == clients[e] {
      assert wanted[e] in desired;
    }
  }

  lemma SameRoutes(routes: map<string, RouteRule>, rules: seq<RouteRule>)
    requires KeyedByTag(routes) && routes.Keys == Tags(rules)
    requires forall r | r in rules :: !NeedsRule(routes, r)
    ensures StaleTags(routes, rules) == {} && ByTag(rules) == routes
  {
    var wanted := ByTag(rules);
    forall t | t in routes ensures wanted[t] == routes[t] {
      assert wanted[t] in rules;
    }
  }

  /** A client list of the right size whose entries are all remembered leaves nothing to add; that nothing
      is left over either is exactly the question whether the panel repeated an address. */
  lemma ClientsUnchanged(clients: map<string, Client>, desired: seq<Client>)
    requires KeyedByEmail(clients) && |desired| == |clients|
    requires forall c | c in desired :: !NeedsAdd(clients, c)
    ensures ClientAdds(clients, desired) == []
    ensures StaleEmails(clients, desired) == {} <==> DistinctEmails(desired)
    ensures DistinctEmails(desired) ==> ByEmail(desired) == clients
  {
    ClientAddsAre(clients, desired);
    HasMember(ClientAdds(clients, desired));
    DistinctByCount(desired);
    assert |clients.Keys| == |clients|;
    assert Emails(desired) <= clients.Keys;
    SameSizeSubset(Emails(desired), clients.Keys);
    if DistinctEmails(desired) {
      SameClients(clients, desired);
    } else {
      var e :| e in clients.Keys - Emails(desired);
      assert e in StaleEmails(clients, desired);
    }
  }

  lemma RoutesUnchanged(routes: map<string, RouteRule>, rules: seq<RouteRule>)
    requires KeyedByTag(routes) && DistinctTags(rules) && |rules| == |routes|
    requires forall r | r in rules :: !NeedsRule(routes, r)
    ensures RouteAdds(routes, rules) == [] && StaleTags(routes, rules) == {}
    ensures ByTag(rules) == routes
  {
    RouteAddsAre(routes, rules);
    HasMember(RouteAdds(routes, rules));
    CountTags(rules);
    assert |routes.Keys| == |routes|;
    SameSizeSubset(Tags(rules), routes.Keys);
    SameRoutes(routes, rules);
  }

  /** When the fast path applies, the slow path would have issued no call and changed nothing. */
  lemma FastPathIdle(env: Env, tags: InboundTags, w: World, ds: PanelState,
                     userOrder: seq<string>, ruleOrder: seq<string>)
    requires KeyedByEmail(w.clients) && KeyedByTag(w.routes) && DistinctEmails(ds.clients)
    requires LegalOrders(w, false, ds, userOrder, ruleOrder) && TakesFastPath(w, false, ds)
    ensures SlowSync(env, tags, w, false, ds, userOrder, ruleOrder) == (w, None)
  {
    var rules := Normalize(ds.routes);
    ClientsUnchanged(w.clients, ds.clients);
    RoutesUnchanged(w.routes, rules);
    NormalizeFixpoints(ds.routes);
    NothingToDo(w, ds, userOrder, ruleOrder);
    assert State(env, tags, w.rt, [], []) == Applied(w.rt, false, None);
  }

  /** The fast path refines the slow one: for a list without repeated addresses the shortcut cannot be
      told apart from always doing the work. */
  lemma FastPathRefines(env: Env, tags: InboundTags, w: World, ds: PanelState,
                        userOrder: seq<string>, ruleOrder: seq<string>)
    requires KeyedByEmail(w.clients) && KeyedByTag(w.routes) && DistinctEmails(ds.clients)
    requires LegalOrders(w, false, ds, userOrder, ruleOrder)
    ensures Sync(env, tags, w, false, Some(ds), userOrder, ruleOrder)
         == SlowSync(env, tags, w, false, ds, userOrder, ruleOrder)
  {
    if TakesFastPath(w, false, ds) {
      FastPathIdle(env, tags, w, ds, userOrder, ruleOrder);
    }
  }

  lemma NothingToDo(w: World, ds: PanelState, userOrder: seq<string>, ruleOrder: seq<string>)
    requires LegalOrders(w, false, ds, userOrder, ruleOrder)
    requires ClientAdds(w.clients, ds.clients) == [] && StaleEmails(w.clients, ds.clients) == {}
    requires var rules := Normalize(Normalize(ds.routes));
      RouteAdds(w.routes, rules) == [] && StaleTags(w.routes, rules) == {}
    ensures UserOps(w.clients, ds.clients, userOrder) == []
    ensures RuleOps(w.routes, Normalize(ds.routes), ruleOrder) == []
  {
    HasMember(userOrder);
    HasMember(ruleOrder);
  }

  /** Conversely, an equal version and empty differences always take the fast path. */
  lemma FastPathComplete(w: World, ds: PanelState)
    requires KeyedByEmail(w.clients) && KeyedByTag(w.routes) && DistinctEmails(ds.clients)
    requires ds.version == w.version
    requires ClientAdds(w.clients, ds.clients) == [] && StaleEmails(w.clients, ds.clients) == {}
    requires RouteAdds(w.routes, Normalize(ds.routes)) == [] && StaleTags(w.routes, Normalize(ds.routes)) == {}
    ensures TakesFastPath(w, false, ds)
  {
    var rules := Normalize(ds.routes);
    ClientAddsAre(w.clients, ds.clients);
    RouteAddsAre(w.routes, rules);
    DistinctByCount(ds.clients);
    CountTags(rules);
    SameKeys(w.clients, Emails(ds.clients), StaleEmails(w.clients, ds.clients));
    SameKeys(w.routes, Tags(rules), StaleTags(w.routes, rules));
  }

  lemma SameKeys<V>(m: map<string, V>, wanted: set<string>, stale: set<string>)
    requires wanted <= m.Keys && stale == {}
    requires forall x | x in m && x !in wanted :: x in stale
    ensures m.Keys == wanted && |m| == |wanted|
  {
    assert m.Keys == wanted;
    assert |m.Keys| == |m|;
  }
}
