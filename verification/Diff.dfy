/** What separates the agent's current maps from the desired lists, and the operations that close the gap. */
module Diff {
  import opened Model
  import opened Routes
  import opened Runtime

  datatype InboundTags = InboundTags(vless: string, vmess: string, trojan: string)

  /** The empty string stands for "no inbound", whether the protocol is unknown or not configured. */
  function TagFor(tags: InboundTags, proto: string): string {
    match proto
    case "vless" => tags.vless
    case "vmess" => tags.vmess
    case "trojan" => tags.trojan
    case _ => ""
  }

  function BuildUser(c: Client): Option<Account> {
    match c.proto
    case "vless" => Some(Vless(c.id))
    case "vmess" => Some(Vmess(c.id))
    case "trojan" => Some(Trojan(c.password))
    case _ => None
  }

  function KeyOf(tags: InboundTags, c: Client): Key {
    Key(TagFor(tags, c.proto), c.email)
  }

  // ---------- the differences ----------

  predicate NeedsAdd(current: map<string, Client>, c: Client) {
    c.email !in current || !EqualClient(current[c.email], c)
  }

  function ClientAdds(current: map<string, Client>, desired: seq<Client>): seq<Client> {
    if desired == [] then []
    else if NeedsAdd(current, desired[0]) then [desired[0]] + ClientAdds(current, desired[1..])
    else ClientAdds(current, desired[1..])
  }

  lemma {:induction false} ClientAddsAre(current: map<string, Client>, desired: seq<Client>)
    ensures forall c :: c in ClientAdds(current, desired) <==> c in desired && NeedsAdd(current, c)
  {
    if desired != [] {
      ClientAddsAre(current, desired[1..]);
      assert desired == [desired[0]] + desired[1..];
    }
  }

  function StaleEmails(current: map<string, Client>, desired: seq<Client>): set<string> {
    var wanted := ByEmail(desired);
    set e | e in current && (e !in wanted || !EqualClient(current[e], wanted[e]))
  }

  predicate NeedsRule(current: map<string, RouteRule>, r: RouteRule) {
    r.tag !in current || !EqualRoute(current[r.tag], r)
  }

  function RouteAdds(current: map<string, RouteRule>, desired: seq<RouteRule>): seq<RouteRule> {
    if desired == [] then []
    else if NeedsRule(current, desired[0]) then [desired[0]] + RouteAdds(current, desired[1..])
    else RouteAdds(current, desired[1..])
  }

  lemma {:induction false} RouteAddsAre(current: map<string, RouteRule>, desired: seq<RouteRule>)
    ensures forall r :: r in RouteAdds(current, desired) <==> r in desired && NeedsRule(current, r)
  {
    if desired != [] {
      RouteAddsAre(current, desired[1..]);
      assert desired == [desired[0]] + desired[1..];
    }
  }

  function StaleTags(current: map<string, RouteRule>, desired: seq<RouteRule>): set<string> {
    var wanted := ByTag(desired);
    set t | t in current && (t !in wanted || !EqualRoute(current[t], wanted[t]))
  }

  /** One of the orders in which a map iteration may visit a set of keys. */
  ghost predicate IsOrderOf(order: seq<string>, s: set<string>) {
    && (forall i, j | 0 <= i < j < |order| :: order[i] != order[j])
    && (forall x :: x in order <==> x in s)
  }

  function Values<V>(m: map<string, V>, order: seq<string>): seq<V> {
    if order == [] then []
    else if order[0] in m then [m[order[0]]] + Values(m, order[1..])
    else Values(m, order[1..])
  }

  /** The agent's maps are keyed by the address, or the tag, of the entry itself. */
  ghost predicate KeyedByEmail(current: map<string, Client>) {
    forall e | e in current :: current[e].email == e
  }

  ghost predicate KeyedByTag(current: map<string, RouteRule>) {
    forall t | t in current :: current[t].tag == t
  }

  // ---------- the source's diff loops ----------

  method DiffClients(current: map<string, Client>, desired: seq<Client>)
    returns (adds: seq<Client>, removes: seq<Client>, ghost order: seq<string>)
    ensures adds == ClientAdds(current, desired)
    ensures IsOrderOf(order, StaleEmails(current, desired)) && removes == Values(current, order)
  {
    removes, order := StaleClients(current, desired);
    adds := MissingClients(current, desired);
  }

  /** The entries that are no longer wanted as they are, in the order the map yields them. */
  method StaleClients(current: map<string, Client>, desired: seq<Client>)
    returns (removes: seq<Client>, ghost order: seq<string>)
    ensures IsOrderOf(order, StaleEmails(current, desired)) && removes == Values(current, order)
    ensures forall c :: c in removes <==> exists e :: e in StaleEmails(current, desired) && current[e] == c
  {
    var wanted := IndexByEmail(desired);
    ghost var stale := StaleEmails(current, desired);
    removes, order := [], [];
    var todo := current.Keys;
    while todo != {}
      invariant todo <= current.Keys
      invariant IsOrderOf(order, stale - todo)
      invariant removes == Values(current, order)
      decreases todo
    {
      var email :| email in todo;
      var cur := current[email];
      if email !in wanted || !EqualClient(cur, wanted[email]) {
        ValuesAppend(current, order, email);
        SetStep(stale, todo, email);
        OrderAppend(order, stale - todo, email);
        removes, order := removes + [cur], order + [email];
      } else {
        SetStep(stale, todo, email);
      }
      todo := todo - {email};
    }
    ValuesAre(current, order);
  }

  /** The wanted entries that are absent or different, in list order. */
  method MissingClients(current: map<string, Client>, desired: seq<Client>) returns (adds: seq<Client>)
    ensures adds == ClientAdds(current, desired)
  {
    adds := [];
    for i := 0 to |desired|
      invariant adds + ClientAdds(current, desired[i..]) == ClientAdds(current, desired)
    {
      var want := desired[i];
      ghost var rest := ClientAdds(current, desired[i + 1..]);
      assert desired[i..][1..] == desired[i + 1..];
      assert adds + ([want] + rest) == (adds + [want]) + rest;
      if want.email !in current || !EqualClient(current[want.email], want) {
        adds := adds + [want];
      }
    }
  }

  method DiffRoutes(current: map<string, RouteRule>, desired: seq<RouteRule>)
    returns (adds: seq<RouteRule>, removes: seq<RouteRule>, ghost order: seq<string>)
    ensures adds == RouteAdds(current, Normalize(desired))
    ensures IsOrderOf(order, StaleTags(current, Normalize(desired))) && removes == Values(current, order)
  {
    var normal, _ := NormalizeRouteRules(desired);
    removes, order := StaleRoutes(current, normal);
    adds := MissingRoutes(current, normal);
  }

  /** The entries that are no longer wanted as they are, in the order the map yields them. */
  method StaleRoutes(current: map<string, RouteRule>, desired: seq<RouteRule>)
    returns (removes: seq<RouteRule>, ghost order: seq<string>)
    ensures IsOrderOf(order, StaleTags(current, desired)) && removes == Values(current, order)
    ensures forall r :: r in removes <==> exists t :: t in StaleTags(current, desired) && current[t] == r
  {
    var wanted := IndexByTag(desired);
    ghost var stale := StaleTags(current, desired);
    removes, order := [], [];
    var todo := current.Keys;
    while todo != {}
      invariant todo <= current.Keys
      invariant IsOrderOf(order, stale - todo)
      invariant removes == Values(current, order)
      decreases todo
    {
      var tag :| tag in todo;
      var cur := current[tag];
      if tag !in wanted || !EqualRoute(cur, wanted[tag]) {
        ValuesAppend(current, order, tag);
        SetStep(stale, todo, tag);
        OrderAppend(order, stale - todo, tag);
        removes, order := removes + [cur], order + [tag];
      } else {
        SetStep(stale, todo, tag);
      }
      todo := todo - {tag};
    }
    ValuesAre(current, order);
  }

  /** The wanted entries that are absent or different, in list order. */
  method MissingRoutes(current: map<string, RouteRule>, desired: seq<RouteRule>) returns (adds: seq<RouteRule>)
    ensures adds == RouteAdds(current, desired)
  {
    adds := [];
    for i := 0 to |desired|
      invariant adds + RouteAdds(current, desired[i..]) == RouteAdds(current, desired)
    {
      var want := desired[i];
      ghost var rest := RouteAdds(current, desired[i + 1..]);
      assert desired[i..][1..] == desired[i + 1..];
      assert adds + ([want] + rest) == (adds + [want]) + rest;
      if want.tag !in current || !EqualRoute(current[want.tag], want) {
        adds := adds + [want];
      }
    }
  }

  /** The loop, shared by the diff and the store, that fills a last-write-wins map. */
  method IndexByEmail(cs: seq<Client>) returns (m: map<string, Client>)
    ensures m == ByEmail(cs)
  {
    m := map[];
    for i := 0 to |cs|
      invariant m + ByEmail(cs[i..]) == ByEmail(cs)
    {
      assert cs[i..][1..] == cs[i + 1..];
      UpdateThenMerge(m, cs[i].email, cs[i], ByEmail(cs[i + 1..]));
      m := m[cs[i].email := cs[i]];
    }
  }

  method IndexByTag(rs: seq<RouteRule>) returns (m: map<string, RouteRule>)
    ensures m == ByTag(rs)
  {
    m := map[];
    for i := 0 to |rs|
      invariant m + ByTag(rs[i..]) == ByTag(rs)
    {
      assert rs[i..][1..] == rs[i + 1..];
      UpdateThenMerge(m, rs[i].tag, rs[i], ByTag(rs[i + 1..]));
      m := m[rs[i].tag := rs[i]];
    }
  }

  lemma UpdateThenMerge<V>(m: map<string, V>, k: string, v: V, later: map<string, V>)
    ensures m[k := v] + later == m + (map[k := v] + later)
  {
  }

  lemma SetStep(all: set<string>, todo: set<string>, x: string)
    requires x in todo
    ensures all - (todo - {x}) == if x in all then all - todo + {x} else all - todo
  {
  }

  lemma OrderAppend(order: seq<string>, s: set<string>, x: string)
    requires IsOrderOf(order, s) && x !in s
    ensures IsOrderOf(order + [x], s + {x})
  {
  }

  lemma {:induction false} ValuesAppend<V>(m: map<string, V>, order: seq<string>, k: string)
    requires k in m
    ensures Values(m, order + [k]) == Values(m, order) + [m[k]]
  {
    if order == [] {
      assert order + [k] == [k];
    } else {
      ValuesAppend(m, order[1..], k);
      assert (order + [k])[1..] == order[1..] + [k];
    }
  }

  lemma {:induction false} ValuesAre<V>(m: map<string, V>, order: seq<string>)
    ensures forall v :: v in Values(m, order) <==> exists k :: k in order && k in m && m[k] == v
  {
    if order != [] {
      ValuesAre(m, order[1..]);
      assert order == [order[0]] + order[1..];
    }
  }
}
