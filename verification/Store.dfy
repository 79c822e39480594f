/** The agent's memory of the last response it applied. */
module Store {
  import opened Model
  import opened Diff

  class Store {
    var lastVersion: int
    var clients: map<string, Client>
    var routes: map<string, RouteRule>

    constructor ()
      ensures lastVersion == -1 && clients == map[] && routes == map[]
    {
      lastVersion, clients, routes := -1, map[], map[];
    }

    /** The fast-path test, with the early returns of the source. */
    method IsUnchanged(version: int, cs: seq<Client>, rs: seq<RouteRule>) returns (same: bool)
      ensures same <==>
        && version == lastVersion && |cs| == |clients| && |rs| == |routes|
        && (forall c | c in cs :: c.email in clients && EqualClient(clients[c.email], c))
        && (forall r | r in rs :: r.tag in routes && EqualRoute(routes[r.tag], r))
    {
      if version != lastVersion || |cs| != |clients| || |rs| != |routes| {
        return false;
      }
      for i := 0 to |cs|
        invariant forall j | 0 <= j < i :: cs[j].email in clients && EqualClient(clients[cs[j].email], cs[j])
      {
        if cs[i].email !in clients || !EqualClient(clients[cs[i].email], cs[i]) {
          assert cs[i] in cs;
          return false;
        }
      }
      for i := 0 to |rs|
        invariant forall j | 0 <= j < i :: rs[j].tag in routes && EqualRoute(routes[rs[j].tag], rs[j])
      {
        if rs[i].tag !in routes || !EqualRoute(routes[rs[i].tag], rs[i]) {
          assert rs[i] in rs;
          return false;
        }
      }
      return true;
    }

    /** All three fields are replaced together; for either map the last entry under a name wins. */
    method Update(version: int, cs: seq<Client>, rs: seq<RouteRule>)
      modifies this
      ensures lastVersion == version && clients == ByEmail(cs) && routes == ByTag(rs)
    {
      var next := IndexByEmail(cs);
      var nextRoutes := IndexByTag(rs);
      lastVersion, clients, routes := version, next, nextRoutes;
    }

    /** Every remembered address once, in some order. */
    method Emails() returns (emails: seq<string>)
      ensures IsOrderOf(emails, clients.Keys)
    {
      emails := [];
      var todo := clients.Keys;
      while todo != {}
        invariant todo <= clients.Keys && IsOrderOf(emails, clients.Keys - todo)
        decreases todo
      {
        var email :| email in todo;
        SetStep(clients.Keys, todo, email);
        OrderAppend(emails, clients.Keys - todo, email);
        emails, todo := emails + [email], todo - {email};
      }
    }

    method ClientsSnapshot() returns (snapshot: map<string, Client>)
      ensures snapshot == clients
    {
      snapshot := map[];
      var todo := clients.Keys;
      while todo != {}
        invariant todo <= clients.Keys && snapshot.Keys == clients.Keys - todo
        invariant forall e | e in snapshot :: snapshot[e] == clients[e]
        decreases todo
      {
        var email :| email in todo;
        snapshot, todo := snapshot[email := clients[email]], todo - {email};
      }
    }

    method RoutesSnapshot() returns (snapshot: map<string, RouteRule>)
      ensures snapshot == routes
    {
      snapshot := map[];
      var todo := routes.Keys;
      while todo != {}
        invariant todo <= routes.Keys && snapshot.Keys == routes.Keys - todo
        invariant forall t | t in snapshot :: snapshot[t] == routes[t]
        decreases todo
      {
        var tag :| tag in todo;
        snapshot, todo := snapshot[tag := routes[tag]], todo - {tag};
      }
    }
  }
}
