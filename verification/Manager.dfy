/** The object that applies differences to the core, call by call. */
module Manager {
  import opened Model
  import opened Routes
  import opened Runtime
  import opened Diff
  import Apply
  import opened Batch

  class Manager {
    const tags: InboundTags
    const core: Core

    constructor (tags: InboundTags, core: Core)
      ensures this.tags == tags && this.core == core
    {
      this.tags, this.core := tags, core;
    }

    method RemoveUser(c: Client) returns (err: Option<Apply.Error>)
      modifies core
      ensures (core.Value(), err) == Apply.RemoveUser(core.env, tags, old(core.Value()), c)
    {
      var tag := TagFor(tags, c.proto);
      if tag == "" {
        return Some(Apply.NoInbound(c.proto));
      }
      var reply := core.RemoveUser(Key(tag, c.email));
      return Apply.ErrorOf(reply);
    }

    method AddUser(c: Client) returns (err: Option<Apply.Error>)
      modifies core
      ensures (core.Value(), err) == Apply.AddUser(core.env, tags, old(core.Value()), c)
    {
      var _ := RemoveUser(c);
      var user := BuildUser(c);
      if user.None? {
        return Some(Apply.UnsupportedProto(c.proto));
      }
      var tag := TagFor(tags, c.proto);
      if tag == "" {
        return Some(Apply.NoInbound(c.proto));
      }
      var reply := core.AddUser(Key(tag, c.email), user.value);
      return Apply.ErrorOf(reply);
    }

    method RemoveRoute(r: RouteRule) returns (err: Option<Apply.Error>)
      modifies core
      ensures (core.Value(), err) == Apply.RemoveRoute(core.env, old(core.Value()), r)
    {
      if r.tag == "" {
        return Some(Apply.TagRequired);
      }
      var reply := core.RemoveRule(r.tag);
      return Apply.ErrorOf(reply);
    }

    method AddRoute(r: RouteRule) returns (err: Option<Apply.Error>)
      modifies core
      ensures (core.Value(), err) == Apply.AddRoute(core.env, old(core.Value()), r)
    {
      var stale := RemoveRoute(r);
      if stale.Some? && stale.value != Apply.NotFound {
        return Some(Apply.StaleRemoval(r.tag, stale.value));
      }
      if r.tag == "" {
        return Some(Apply.TagRequired);
      }
      if r.outboundTag == "" && r.balancerTag == "" {
        return Some(Apply.OutboundRequired(r.tag));
      }
      var built := core.Try();
      if built != Done {
        return Some(Apply.BuildFailed);
      }
      var reply := core.AddRule(r);
      return Apply.ErrorOf(reply);
    }

    /** The removal loop; `rest` is what the caller means to run afterwards. */
    method RemoveUsers(removes: seq<Client>, ghost rest: seq<Apply.Op>) returns (err: Option<Apply.Error>)
      modifies core
      ensures Apply.RunOps(core.env, tags, old(core.Value()), Apply.DropUsers(removes) + rest)
           == if err.Some? then (core.Value(), err) else Apply.RunOps(core.env, tags, core.Value(), rest)
    {
      for i := 0 to |removes|
        invariant Apply.RunOps(core.env, tags, old(core.Value()), Apply.DropUsers(removes) + rest)
               == Apply.RunOps(core.env, tags, core.Value(), Apply.DropUsers(removes[i..]) + rest)
      {
        ghost var later := Apply.DropUsers(removes[i + 1..]) + rest;
        assert removes[i..][1..] == removes[i + 1..];
        assert Apply.DropUsers(removes[i..]) + rest == [Apply.DropUser(removes[i])] + later;
        Apply.RunStep(core.env, tags, core.Value(), Apply.DropUser(removes[i]), later);
        err := RemoveUser(removes[i]);
        if err.Some? {
          return err;
        }
      }
      assert Apply.DropUsers(removes[|removes|..]) + rest == rest;
      return None;
    }

    method AddUsers(adds: seq<Client>) returns (err: Option<Apply.Error>)
      modifies core
      ensures (core.Value(), err) == Apply.RunOps(core.env, tags, old(core.Value()), Apply.PutUsers(adds))
    {
      for i := 0 to |adds|
        invariant Apply.RunOps(core.env, tags, old(core.Value()), Apply.PutUsers(adds))
               == Apply.RunOps(core.env, tags, core.Value(), Apply.PutUsers(adds[i..]))
      {
        ghost var later := Apply.PutUsers(adds[i + 1..]);
        assert adds[i..][1..] == adds[i + 1..];
        Apply.RunStep(core.env, tags, core.Value(), Apply.PutUser(adds[i]), later);
        err := AddUser(adds[i]);
        if err.Some? {
          return err;
        }
      }
      return None;
    }

    /** No difference, no connection; otherwise removals before additions. */
    method ApplyViaHandler(current: map<string, Client>, desired: seq<Client>)
      returns (changed: bool, err: Option<Apply.Error>, ghost order: seq<string>)
      modifies core
      ensures IsOrderOf(order, StaleEmails(current, desired))
      ensures Apply.Applied(core.Value(), changed, err)
           == Apply.ApplyOps(core.env, tags, old(core.Value()), UserOps(current, desired, order))
    {
      var adds, removes;
      adds, removes, order := DiffClients(current, desired);
      if |adds| == 0 && |removes| == 0 {
        return false, None, order;
      }
      var dialled := core.Try();
      if dialled != Done {
        return false, Some(Apply.Unavailable), order;
      }
      err := RemoveUsers(removes, Apply.PutUsers(adds));
      if err.Some? {
        return false, err, order;
      }
      err := AddUsers(adds);
      return err.None?, err, order;
    }

    /** The removal loop; `rest` is what the caller means to run afterwards. */
    method RemoveRoutes(removes: seq<RouteRule>, ghost rest: seq<Apply.Op>) returns (err: Option<Apply.Error>)
      modifies core
      ensures Apply.RunOps(core.env, tags, old(core.Value()), Apply.DropRules(removes) + rest)
           == if err.Some? then (core.Value(), err) else Apply.RunOps(core.env, tags, core.Value(), rest)
    {
      for i := 0 to |removes|
        invariant Apply.RunOps(core.env, tags, old(core.Value()), Apply.DropRules(removes) + rest)
               == Apply.RunOps(core.env, tags, core.Value(), Apply.DropRules(removes[i..]) + rest)
      {
        ghost var later := Apply.DropRules(removes[i + 1..]) + rest;
        assert removes[i..][1..] == removes[i + 1..];
        assert Apply.DropRules(removes[i..]) + rest == [Apply.DropRule(removes[i])] + later;
        Apply.RunStep(core.env, tags, core.Value(), Apply.DropRule(removes[i]), later);
        err := RemoveRoute(removes[i]);
        if err.Some? {
          return err;
        }
      }
      assert Apply.DropRules(removes[|removes|..]) + rest == rest;
      return None;
    }

    method AddRoutes(adds: seq<RouteRule>) returns (err: Option<Apply.Error>)
      modifies core
      ensures (core.Value(), err) == Apply.RunOps(core.env, tags, old(core.Value()), Apply.PutRules(adds))
    {
      for i := 0 to |adds|
        invariant Apply.RunOps(core.env, tags, old(core.Value()), Apply.PutRules(adds))
               == Apply.RunOps(core.env, tags, core.Value(), Apply.PutRules(adds[i..]))
      {
        ghost var later := Apply.PutRules(adds[i + 1..]);
        assert adds[i..][1..] == adds[i + 1..];
        Apply.RunStep(core.env, tags, core.Value(), Apply.PutRule(adds[i]), later);
        err := AddRoute(adds[i]);
        if err.Some? {
          return err;
        }
      }
      return None;
    }

    /** The same for rules, whose list is normalised first. */
    method ApplyRoutes(current: map<string, RouteRule>, desired: seq<RouteRule>)
      returns (changed: bool, err: Option<Apply.Error>, ghost order: seq<string>)
      modifies core
      ensures IsOrderOf(order, StaleTags(current, Normalize(desired)))
      ensures Apply.Applied(core.Value(), changed, err)
           == Apply.ApplyOps(core.env, tags, old(core.Value()), RuleOps(current, desired, order))
    {
      var adds, removes;
      adds, removes, order := DiffRoutes(current, desired);
      if |adds| == 0 && |removes| == 0 {
        return false, None, order;
      }
      var dialled := core.Try();
      if dialled != Done {
        return false, Some(Apply.Unavailable), order;
      }
      err := RemoveRoutes(removes, Apply.PutRules(adds));
      if err.Some? {
        return false, err, order;
      }
      err := AddRoutes(adds);
      return err.None?, err, order;
    }

    /** Clients, then rules; the rules are not tried when the clients failed. */
    method State(clients: map<string, Client>, desired: seq<Client>,
                 routes: map<string, RouteRule>, rules: seq<RouteRule>)
      returns (changed: bool, err: Option<Apply.Error>, ghost userOrder: seq<string>, ghost ruleOrder: seq<string>)
      modifies core
      ensures IsOrderOf(userOrder, StaleEmails(clients, desired))
      ensures IsOrderOf(ruleOrder, StaleTags(routes, Normalize(rules)))
      ensures Apply.Applied(core.Value(), changed, err)
           == Apply.State(core.env, tags, old(core.Value()), UserOps(clients, desired, userOrder),
                          RuleOps(routes, rules, ruleOrder))
    {
      var clientsChanged, routesChanged;
      clientsChanged, err, userOrder := ApplyViaHandler(clients, desired);
      if err.Some? {
        ruleOrder := AnyOrder(StaleTags(routes, Normalize(rules)));
        return false, err, userOrder, ruleOrder;
      }
      routesChanged, err, ruleOrder := ApplyRoutes(routes, rules);
      if err.Some? {
        return clientsChanged, err, userOrder, ruleOrder;
      }
      return clientsChanged || routesChanged, None, userOrder, ruleOrder;
    }
  }

  /** Some order exists for every set. */
  ghost method AnyOrder(s: set<string>) returns (order: seq<string>)
    ensures IsOrderOf(order, s)
  {
    order := [];
    var todo := s;
    while todo != {}
      invariant todo <= s && IsOrderOf(order, s - todo)
      decreases todo
    {
      var x :| x in todo;
      SetStep(s, todo, x);
      OrderAppend(order, s - todo, x);
      order, todo := order + [x], todo - {x};
    }
  }
}
