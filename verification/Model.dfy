/** The panel's desired state: clients and routing rules, and how the agent compares and indexes them. */
module Model {

  datatype Option<+T> = None | Some(value: T)

  datatype Client = Client(proto: string, id: string, password: string, email: string)

  datatype RouteRule = RouteRule(
    tag: string,
    outboundTag: string,
    balancerTag: string,
    domain: seq<string>,
    ip: seq<string>,
    port: string,
    sourcePort: string,
    inboundTag: seq<string>,
    protocol: seq<string>
  )

  datatype PanelState = PanelState(version: int, clients: seq<Client>, routes: seq<RouteRule>)

  lemma HasMember<T>(s: seq<T>)
    ensures s != [] ==> exists x :: x in s
  {
    if s != [] {
      assert s[0] in s;
    }
  }

  /** The comparison the agent uses for clients that already share an email address. */
  predicate EqualClient(a: Client, b: Client) {
    a.proto == b.proto && a.id == b.id && a.password == b.password
  }

  /** Field-by-field comparison of rules; the two copies in the source are the same predicate. */
  predicate EqualRoute(a: RouteRule, b: RouteRule) {
    && a.tag == b.tag
    && a.outboundTag == b.outboundTag
    && a.balancerTag == b.balancerTag
    && a.port == b.port
    && a.sourcePort == b.sourcePort
    && a.domain == b.domain
    && a.ip == b.ip
    && a.inboundTag == b.inboundTag
    && a.protocol == b.protocol
  }

  function Emails(cs: seq<Client>): set<string> {
    set c | c in cs :: c.email
  }

  function Tags(rs: seq<RouteRule>): set<string> {
    set r | r in rs :: r.tag
  }

  predicate DistinctEmails(cs: seq<Client>) {
    forall i, j | 0 <= i < j < |cs| :: cs[i].email != cs[j].email
  }

  predicate DistinctTags(rs: seq<RouteRule>) {
    forall i, j | 0 <= i < j < |rs| :: rs[i].tag != rs[j].tag
  }

  /** The last-write-wins map from email address to client. */
  function ByEmail(cs: seq<Client>): (m: map<string, Client>)
    ensures m.Keys == Emails(cs)
    ensures forall e | e in m :: m[e] in cs && m[e].email == e
  {
    if cs == [] then map[]
    else
      assert cs == [cs[0]] + cs[1..];
      map[cs[0].email := cs[0]] + ByEmail(cs[1..])
  }

  /** The last-write-wins map from rule tag to rule. */
  function ByTag(rs: seq<RouteRule>): (m: map<string, RouteRule>)
    ensures m.Keys == Tags(rs)
    ensures forall t | t in m :: m[t] in rs && m[t].tag == t
  {
    if rs == [] then map[]
    else
      assert rs == [rs[0]] + rs[1..];
      map[rs[0].tag := rs[0]] + ByTag(rs[1..])
  }

  /** Without repeated addresses every listed client is the one its address maps to. */
  lemma {:induction false} ByEmailDistinct(cs: seq<Client>, i: nat)
    requires DistinctEmails(cs) && i < |cs|
    ensures cs[i].email in ByEmail(cs) && ByEmail(cs)[cs[i].email] == cs[i]
  {
    if i > 0 {
      ByEmailDistinct(cs[1..], i - 1);
    } else {
      assert cs[0].email !in Emails(cs[1..]);
    }
  }

  lemma {:induction false} ByTagDistinct(rs: seq<RouteRule>, i: nat)
    requires DistinctTags(rs) && i < |rs|
    ensures ByTag(rs)[rs[i].tag] == rs[i]
  {
    if i > 0 {
      ByTagDistinct(rs[1..], i - 1);
    } else {
      assert rs[0].tag !in Tags(rs[1..]);
    }
  }

  lemma DistinctCons(c: Client, rest: seq<Client>)
    ensures DistinctEmails([c] + rest) <==> c.email !in Emails(rest) && DistinctEmails(rest)
  {
    var cs := [c] + rest;
    if DistinctEmails(cs) {
      forall i, j | 0 <= i < j < |rest| ensures rest[i].email != rest[j].email {
        assert cs[i + 1].email != cs[j + 1].email;
      }
      forall x | x in rest ensures x.email != c.email {
        var j :| 0 <= j < |rest| && rest[j] == x;
        assert cs[0].email != cs[j + 1].email;
      }
    }
    if c.email !in Emails(rest) && DistinctEmails(rest) {
      forall i, j | 0 <= i < j < |cs| ensures cs[i].email != cs[j].email {
        assert cs[j] == rest[j - 1] && cs[j] in rest;
      }
    }
  }

  lemma TagsCons(r: RouteRule, rest: seq<RouteRule>)
    ensures Tags([r] + rest) == {r.tag} + Tags(rest)
    ensures DistinctTags([r] + rest) <==> r.tag !in Tags(rest) && DistinctTags(rest)
  {
    var rs := [r] + rest;
    assert forall x :: x in rs <==> x == r || x in rest;
    if DistinctTags(rs) {
      forall i, j | 0 <= i < j < |rest| ensures rest[i].tag != rest[j].tag {
        assert rs[i + 1].tag != rs[j + 1].tag;
      }
      forall x | x in rest ensures x.tag != r.tag {
        var j :| 0 <= j < |rest| && rest[j] == x;
        assert rs[0].tag != rs[j + 1].tag;
      }
    }
    if r.tag !in Tags(rest) && DistinctTags(rest) {
      forall i, j | 0 <= i < j < |rs| ensures rs[i].tag != rs[j].tag {
        assert rs[j] == rest[j - 1] && rs[j] in rest;
      }
    }
  }

  lemma EmailsCons(c: Client, rest: seq<Client>)
    ensures Emails([c] + rest) == {c.email} + Emails(rest)
  {
    assert forall x :: x in [c] + rest <==> x == c || x in rest;
  }

  /** Pigeonhole: a list has as many addresses as entries exactly when none repeats. */
  lemma {:induction false} DistinctByCount(cs: seq<Client>)
    ensures |Emails(cs)| <= |cs|
    ensures |Emails(cs)| == |cs| <==> DistinctEmails(cs)
  {
    if cs != [] {
      DistinctByCount(cs[1..]);
      DistinctCons(cs[0], cs[1..]);
      assert cs == [cs[0]] + cs[1..];
      EmailsCons(cs[0], cs[1..]);
      hide Emails, DistinctEmails;
    }
  }
}
