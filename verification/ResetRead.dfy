/** Reading usage in reset-on-read mode: every read may zero a counter, and every read may fail. */
module ResetRead {
  import opened Model
  import opened Diff

  datatype Counter = Uplink(email: string) | Downlink(email: string)

  type Tally = map<Counter, nat>

  /** A refused query has no effect; an unanswered one took effect although the caller sees an error. */
  datatype Fate = Refused | Unanswered | Answered

  /** What happens around one query: the core may restart and traffic may arrive just before it, and then what
      becomes of it. */
  datatype Query = Query(restart: bool, traffic: Tally, fate: Fate)

  /** Everything the agent does not control.  `sweeps(q, c)`: a query for q also matches c, whose name contains
      that of q; with a reset it zeroes c too, although c is not in the answer the agent looks for. */
  datatype Remote = Remote(queries: nat -> Query, sweeps: (Counter, Counter) -> bool)

  datatype Server = Server(counters: Tally, clock: nat)

  /** `taken` is what the query wiped out in its own counter, whether or not the caller learned of it, and
      `lost` what a restart or a sweep wiped out. */
  datatype Reading = Reading(server: Server, value: Option<nat>, taken: nat, lost: Tally)

  function Count(t: Tally, c: Counter): nat {
    if c in t then t[c] else 0
  }

  function Total(s: Tally, t: Tally): Tally {
    map c | c in s.Keys + t.Keys :: Count(s, c) + Count(t, c)
  }

  lemma TotalCount(s: Tally, t: Tally, c: Counter)
    ensures Count(Total(s, t), c) == Count(s, c) + Count(t, c)
  {
  }

  /** The counters after a query has zeroed its own and those it sweeps. */
  function Swept(env: Remote, t: Tally, q: Counter): Tally {
    map c | c in t && c != q && !env.sweeps(q, c) :: t[c]
  }

  function Alongside(env: Remote, t: Tally, q: Counter): Tally {
    map c | c in t && c != q && env.sweeps(q, c) :: t[c]
  }

  /** The counters that a query comes to: a restart has wiped out the old ones, and traffic has arrived. */
  function Wiped(env: Remote, s: Server): Tally {
    if env.queries(s.clock).restart then s.counters else map[]
  }

  function Remaining(env: Remote, s: Server): Tally {
    if env.queries(s.clock).restart then map[] else s.counters
  }

  function Served(env: Remote, s: Server): Tally {
    Total(Remaining(env, s), env.queries(s.clock).traffic)
  }

  function QuerySingle(env: Remote, reset: bool, s: Server, c: Counter): Reading {
    var q, wiped, before := env.queries(s.clock), Wiped(env, s), Served(env, s);
    if q.fate.Refused? then Reading(Server(before, s.clock + 1), None, 0, wiped)
    else
      var value := if q.fate.Answered? then Some(Count(before, c)) else None;
      if reset then
        Reading(Server(Swept(env, before, c), s.clock + 1), value, Count(before, c),
                Total(wiped, Alongside(env, before, c)))
      else
        Reading(Server(before, s.clock + 1), value, 0, wiped)
  }

  datatype Bytes = Bytes(up: nat, down: nat)

  datatype Fetched = Fetched(server: Server, usage: Option<Bytes>, taken: Tally, lost: Tally)

  /** Uplink first; the downlink is not asked for when the uplink failed. */
  function Fetch(env: Remote, reset: bool, s: Server, email: string): Fetched {
    var up := QuerySingle(env, reset, s, Uplink(email));
    if up.value.None? then Fetched(up.server, None, map[Uplink(email) := up.taken], up.lost)
    else
      var down := QuerySingle(env, reset, up.server, Downlink(email));
      Fetched(down.server,
              if down.value.None? then None else Some(Bytes(up.value.value, down.value.value)),
              map[Uplink(email) := up.taken, Downlink(email) := down.taken], Total(up.lost, down.lost))
  }

  datatype Polled = Polled(server: Server, usage: Option<map<string, Bytes>>, taken: Tally, lost: Tally)

  /** The first failure discards everything read so far. */
  function QueryUserBytes(env: Remote, reset: bool, s: Server, emails: seq<string>): Polled
    decreases emails
  {
    if emails == [] then Polled(s, Some(map[]), map[], map[])
    else
      var first := Fetch(env, reset, s, emails[0]);
      if first.usage.None? then Polled(first.server, None, first.taken, first.lost)
      else
        var rest := QueryUserBytes(env, reset, first.server, emails[1..]);
        Polled(rest.server,
               if rest.usage.None? then None else Some(map[emails[0] := first.usage.value] + rest.usage.value),
               Total(first.taken, rest.taken), Total(first.lost, rest.lost))
  }

  // ---------- conservation ----------

  /** Traffic of one counter that arrived with the queries numbered from..until. */
  function Arrived(env: Remote, c: Counter, from: nat, until: nat): nat
    decreases until - from
  {
    if from >= until then 0 else Count(env.queries(from).traffic, c) + Arrived(env, c, from + 1, until)
  }

  lemma {:induction false} ArrivedSplit(env: Remote, c: Counter, from: nat, middle: nat, until: nat)
    requires from <= middle <= until
    ensures Arrived(env, c, from, until) == Arrived(env, c, from, middle) + Arrived(env, c, middle, until)
    decreases middle - from
  {
    if from < middle {
      ArrivedSplit(env, c, from + 1, middle, until);
    }
  }

  lemma SweptCount(env: Remote, t: Tally, q: Counter, c: Counter)
    ensures Count(Swept(env, t, q), c) + Count(Alongside(env, t, q), c) == if c == q then 0 else Count(t, c)
    ensures Count(Swept(env, t, q), c) == if c == q || env.sweeps(q, c) then 0 else Count(t, c)
  {
  }

  lemma ArrivedOne(env: Remote, c: Counter, i: nat)
    ensures Arrived(env, c, i, i + 1) == Count(env.queries(i).traffic, c)
  {
    assert Arrived(env, c, i + 1, i + 1) == 0;
  }

  lemma WipedOrKept(env: Remote, s: Server, c: Counter)
    ensures Count(Wiped(env, s), c) + Count(Remaining(env, s), c) == Count(s.counters, c)
    ensures Served(env, s) == Total(Remaining(env, s), env.queries(s.clock).traffic)
  {
  }

  lemma QueryMoves(env: Remote, s: Server, q: Counter, c: Counter)
    ensures
      var r, before := QuerySingle(env, true, s, q), Served(env, s);
      && r.server.clock == s.clock + 1
      && (r.value.Some? ==> r.value.value == r.taken)
      && (env.queries(s.clock).fate.Refused? ==> r.server.counters == before && r.taken == 0 && r.lost == Wiped(env, s))
      && (!env.queries(s.clock).fate.Refused? ==>
            && r.server.counters == Swept(env, before, q) && r.taken == Count(before, q)
            && r.lost == Total(Wiped(env, s), Alongside(env, before, q)))
  {
    hide Served, Wiped, Swept, Alongside, Total, Count;
  }

  /** One query moves bytes, it never makes or loses any. */
  lemma QueryConserves(env: Remote, s: Server, q: Counter, c: Counter)
    ensures var r := QuerySingle(env, true, s, q);
      && r.server.clock == s.clock + 1
      && Count(r.server.counters, c) + (if c == q then r.taken else 0) + Count(r.lost, c)
           == Count(s.counters, c) + Arrived(env, c, s.clock, s.clock + 1)
      && (r.value.Some? ==> r.value.value == r.taken)
  {
    hide *;
    ArrivedOne(env, c, s.clock);
    QueryMoves(env, s, q, c);
    TotalCount(Remaining(env, s), env.queries(s.clock).traffic, c);
    SweptCount(env, Served(env, s), q, c);
    TotalCount(Wiped(env, s), Alongside(env, Served(env, s), q), c);
    WipedOrKept(env, s, c);
  }

  lemma FetchConserves(env: Remote, s: Server, email: string, c: Counter)
    ensures var r := Fetch(env, true, s, email);
      && r.server.clock >= s.clock
      && Count(r.server.counters, c) + Count(r.taken, c) + Count(r.lost, c)
           == Count(s.counters, c) + Arrived(env, c, s.clock, r.server.clock)
      && (c.email != email ==> c !in r.taken)
      && (r.usage.Some? ==>
            r.taken == map[Uplink(email) := r.usage.value.up, Downlink(email) := r.usage.value.down])
  {
    hide QuerySingle, Total;
    var up := QuerySingle(env, true, s, Uplink(email));
    QueryConserves(env, s, Uplink(email), c);
    if up.value.Some? {
      QueryConserves(env, up.server, Downlink(email), c);
      ArrivedSplit(env, c, s.clock, s.clock + 1, s.clock + 2);
      TotalCount(up.lost, QuerySingle(env, true, up.server, Downlink(email)).lost, c);
    }
  }

  /** What a result reports for one counter. */
  function Reported(usage: map<string, Bytes>, c: Counter): nat {
    if c.email !in usage then 0
    else if c.Uplink? then usage[c.email].up
    else usage[c.email].down
  }

  /** A whole query conserves bytes, and takes them from the users it was asked about only. */
  lemma {:induction false} PollConserves(env: Remote, s: Server, emails: seq<string>, c: Counter)
    ensures var r := QueryUserBytes(env, true, s, emails);
      && r.server.clock >= s.clock
      && Count(r.server.counters, c) + Count(r.taken, c) + Count(r.lost, c)
           == Count(s.counters, c) + Arrived(env, c, s.clock, r.server.clock)
      && (c.email !in emails ==> Count(r.taken, c) == 0)
    decreases emails
  {
    if emails != [] {
      var first, r := Fetch(env, true, s, emails[0]), QueryUserBytes(env, true, s, emails);
      FetchConserves(env, s, emails[0], c);
      if first.usage.Some? {
        var rest := QueryUserBytes(env, true, first.server, emails[1..]);
        assert r.server == rest.server && r.taken == Total(first.taken, rest.taken);
        assert r.lost == Total(first.lost, rest.lost);
        hide QueryUserBytes, Fetch, Total, Arrived;
        PollConserves(env, first.server, emails[1..], c);
        ArrivedSplit(env, c, s.clock, first.server.clock, r.server.clock);
        TotalCount(first.taken, rest.taken, c);
        TotalCount(first.lost, rest.lost, c);
      }
    }
  }

  predicate Distinct(emails: seq<string>) {
    forall i, j | 0 <= i < j < |emails| :: emails[i] != emails[j]
  }

  lemma DistinctTail(emails: seq<string>)
    requires emails != [] && Distinct(emails)
    ensures Distinct(emails[1..]) && emails[0] !in emails[1..]
    ensures forall e :: e in emails <==> e == emails[0] || e in emails[1..]
  {
    assert emails == [emails[0]] + emails[1..];
  }

  lemma ReportedPlus(e: string, u: Bytes, m: map<string, Bytes>, c: Counter)
    requires e !in m
    ensures Reported(map[e := u] + m, c)
         == Count(map[Uplink(e) := u.up, Downlink(e) := u.down], c) + Reported(m, c)
  {
  }

  /** A query that succeeds reports exactly the bytes it took, for exactly the users it was asked about. */
  lemma {:induction false} PollReports(env: Remote, s: Server, emails: seq<string>, c: Counter)
    requires Distinct(emails)
    requires QueryUserBytes(env, true, s, emails).usage.Some?
    ensures var r := QueryUserBytes(env, true, s, emails);
      && (forall e :: e in r.usage.value <==> e in emails)
      && Reported(r.usage.value, c) == Count(r.taken, c)
    decreases emails
  {
    if emails != [] {
      var first, r := Fetch(env, true, s, emails[0]), QueryUserBytes(env, true, s, emails);
      var rest := QueryUserBytes(env, true, first.server, emails[1..]);
      DistinctTail(emails);
      FetchConserves(env, s, emails[0], c);
      assert r.usage.value == map[emails[0] := first.usage.value] + rest.usage.value;
      assert r.taken == Total(first.taken, rest.taken);
      hide QueryUserBytes, Fetch, Total, Count, Reported, Distinct;
      PollReports(env, first.server, emails[1..], c);
      ReportedPlus(emails[0], first.usage.value, rest.usage.value, c);
      TotalCount(first.taken, rest.taken, c);
    }
  }

  // ---------- whole runs ----------

  /** The server, and an observer's books: bytes carried, bytes the panel received, and bytes wiped out
      without reaching it. */
  datatype Books = Books(server: Server, carried: Tally, delivered: Tally, dropped: Tally)

  datatype Round =
    | Traffic(bytes: Tally)
    | CoreReset
    | Poll(emails: seq<string>, posted: bool)

  function Reports(usage: map<string, Bytes>): Tally {
    (map e | e in usage :: Uplink(e) := usage[e].up) + (map e | e in usage :: Downlink(e) := usage[e].down)
  }

  /** Bytes that arrived for the counters of anybody during a poll. */
  function ArrivedTally(env: Remote, from: nat, until: nat): Tally
    decreases until - from
  {
    if from >= until then map[] else Total(env.queries(from).traffic, ArrivedTally(env, from + 1, until))
  }

  function NextBooks(env: Remote, b: Books, round: Round): Books {
    match round
    case Traffic(bytes) =>
      b.(server := b.server.(counters := Total(b.server.counters, bytes)), carried := Total(b.carried, bytes))
    case CoreReset =>
      b.(server := b.server.(counters := map[]), dropped := Total(b.dropped, b.server.counters))
    case Poll(emails, posted) =>
      var r := QueryUserBytes(env, true, b.server, emails);
      var b1 := b.(server := r.server, carried := Total(b.carried, ArrivedTally(env, b.server.clock, r.server.clock)));
      var b2 := b1.(dropped := Total(b.dropped, r.lost));
      if r.usage.Some? && posted then b2.(delivered := Total(b.delivered, Reports(r.usage.value)))
      else b2.(dropped := Total(b2.dropped, r.taken))
  }

  function BooksAfter(env: Remote, b: Books, rounds: seq<Round>): Books
    decreases rounds
  {
    if rounds == [] then b else BooksAfter(env, NextBooks(env, b, rounds[0]), rounds[1..])
  }

  ghost predicate LegalRound(round: Round) {
    round.Poll? ==> Distinct(round.emails)
  }

  ghost predicate Balanced(b: Books, c: Counter) {
    Count(b.carried, c) == Count(b.delivered, c) + Count(b.dropped, c) + Count(b.server.counters, c)
  }

  lemma {:induction false} ArrivedTallyCount(env: Remote, from: nat, until: nat, c: Counter)
    ensures Count(ArrivedTally(env, from, until), c) == Arrived(env, c, from, until)
    decreases until - from
  {
    if from < until {
      ArrivedTallyCount(env, from + 1, until, c);
    }
  }

  lemma ReportsCount(usage: map<string, Bytes>, c: Counter)
    ensures Count(Reports(usage), c) == Reported(usage, c)
  {
  }

  lemma RoundBalanced(env: Remote, b: Books, round: Round, c: Counter)
    requires LegalRound(round) && Balanced(b, c)
    ensures Balanced(NextBooks(env, b, round), c)
  {
    hide Total, QueryUserBytes, ArrivedTally, Reports;
    match round
    case Traffic(bytes) =>
      TotalCount(b.server.counters, bytes, c);
      TotalCount(b.carried, bytes, c);
    case CoreReset =>
      TotalCount(b.dropped, b.server.counters, c);
    case Poll(emails, posted) =>
      var r := QueryUserBytes(env, true, b.server, emails);
      PollConserves(env, b.server, emails, c);
      ArrivedTallyCount(env, b.server.clock, r.server.clock, c);
      TotalCount(b.carried, ArrivedTally(env, b.server.clock, r.server.clock), c);
      TotalCount(b.dropped, r.lost, c);
      if r.usage.Some? && posted {
        PollReports(env, b.server, emails, c);
        ReportsCount(r.usage.value, c);
        TotalCount(b.delivered, Reports(r.usage.value), c);
      } else {
        TotalCount(Total(b.dropped, r.lost), r.taken, c);
      }
  }

  /** Conservation over every run: for each counter, what was carried is what the panel received, plus what
      failures and restarts dropped, plus what the counter still holds.  So no byte is delivered twice. */
  lemma {:induction false} RunBalanced(env: Remote, b: Books, rounds: seq<Round>, c: Counter)
    requires (forall i | 0 <= i < |rounds| :: LegalRound(rounds[i])) && Balanced(b, c)
    ensures Balanced(BooksAfter(env, b, rounds), c)
    decreases rounds
  {
    if rounds != [] {
      RoundBalanced(env, b, rounds[0], c);
      RunBalanced(env, NextBooks(env, b, rounds[0]), rounds[1..], c);
    }
  }

  // ---------- what is lost ----------

  /** A restart of the core loses what a counter holds, and so does a sweep; a poll that failed or was not posted
      loses what it took. */
  function LostIn(env: Remote, b: Books, round: Round, c: Counter): nat {
    match round
    case Traffic(_) => 0
    case CoreReset => Count(b.server.counters, c)
    case Poll(emails, posted) =>
      var r := QueryUserBytes(env, true, b.server, emails);
      Count(r.lost, c) + if r.usage.Some? && posted then 0 else Count(r.taken, c)
  }

  function LostOver(env: Remote, b: Books, rounds: seq<Round>, c: Counter): nat
    decreases rounds
  {
    if rounds == [] then 0
    else LostIn(env, b, rounds[0], c) + LostOver(env, NextBooks(env, b, rounds[0]), rounds[1..], c)
  }

  /** No round of a run loses anything of a counter. */
  predicate NoneLose(env: Remote, b: Books, rounds: seq<Round>, c: Counter)
    decreases rounds
  {
    rounds == []
    || (LostIn(env, b, rounds[0], c) == 0 && NoneLose(env, NextBooks(env, b, rounds[0]), rounds[1..], c))
  }

  lemma RoundDrops(env: Remote, b: Books, round: Round, c: Counter)
    ensures Count(NextBooks(env, b, round).dropped, c) == Count(b.dropped, c) + LostIn(env, b, round, c)
  {
    hide Total, QueryUserBytes;
    match round
    case Traffic(_) =>
    case CoreReset => TotalCount(b.dropped, b.server.counters, c);
    case Poll(emails, posted) =>
      var r := QueryUserBytes(env, true, b.server, emails);
      TotalCount(b.dropped, r.lost, c);
      TotalCount(Total(b.dropped, r.lost), r.taken, c);
  }

  /** On every run, what is dropped of a counter is what the rounds lost of it, and it grows if and only if
      some round loses something. */
  lemma {:induction false} DroppedExactly(env: Remote, b: Books, rounds: seq<Round>, c: Counter)
    ensures Count(BooksAfter(env, b, rounds).dropped, c) == Count(b.dropped, c) + LostOver(env, b, rounds, c)
    ensures Count(BooksAfter(env, b, rounds).dropped, c) == Count(b.dropped, c) <==> NoneLose(env, b, rounds, c)
    decreases rounds
  {
    if rounds != [] {
      RoundDrops(env, b, rounds[0], c);
      hide NextBooks, LostIn;
      DroppedExactly(env, NextBooks(env, b, rounds[0]), rounds[1..], c);
    }
  }

  predicate AllDelivered(env: Remote, b: Books, rounds: seq<Round>)
    decreases rounds
  {
    || rounds == []
    || (&& !rounds[0].CoreReset?
        && (rounds[0].Poll? ==> rounds[0].posted && QueryUserBytes(env, true, b.server, rounds[0].emails).usage.Some?)
        && AllDelivered(env, NextBooks(env, b, rounds[0]), rounds[1..]))
  }

  /** No restart in the middle of a poll, and no query matches a counter it does not name. */
  ghost predicate Clean(env: Remote) {
    (forall i :: !env.queries(i).restart) && (forall q, c :: !env.sweeps(q, c))
  }

  lemma {:induction false} CleanPoll(env: Remote, s: Server, emails: seq<string>, c: Counter)
    requires Clean(env)
    ensures Count(QueryUserBytes(env, true, s, emails).lost, c) == 0
    decreases emails
  {
    if emails != [] {
      var first := Fetch(env, true, s, emails[0]);
      CleanFetch(env, s, emails[0], c);
      if first.usage.Some? {
        var rest := QueryUserBytes(env, true, first.server, emails[1..]);
        hide Fetch, Total, Clean;
        CleanPoll(env, first.server, emails[1..], c);
        TotalCount(first.lost, rest.lost, c);
      }
    }
  }

  lemma CleanQuery(env: Remote, s: Server, q: Counter, c: Counter)
    requires Clean(env)
    ensures Count(QuerySingle(env, true, s, q).lost, c) == 0
  {
    var before := Total(s.counters, env.queries(s.clock).traffic);
    assert Count(Alongside(env, before, q), c) == 0;
    TotalCount(map[], Alongside(env, before, q), c);
  }

  lemma CleanFetch(env: Remote, s: Server, email: string, c: Counter)
    requires Clean(env)
    ensures Count(Fetch(env, true, s, email).lost, c) == 0
  {
    hide QuerySingle, Total, Clean;
    var up := QuerySingle(env, true, s, Uplink(email));
    CleanQuery(env, s, Uplink(email), c);
    CleanQuery(env, up.server, Downlink(email), c);
    TotalCount(up.lost, QuerySingle(env, true, up.server, Downlink(email)).lost, c);
  }

  /** In particular nothing is dropped as long as every poll succeeds and is posted, the core stays up and no
      query sweeps. */
  lemma {:induction false} NothingDropped(env: Remote, b: Books, rounds: seq<Round>, c: Counter)
    requires AllDelivered(env, b, rounds) && Clean(env)
    ensures Count(BooksAfter(env, b, rounds).dropped, c) == Count(b.dropped, c)
    decreases rounds
  {
    if rounds != [] {
      RoundDrops(env, b, rounds[0], c);
      if rounds[0].Poll? {
        CleanPoll(env, b.server, rounds[0].emails, c);
      }
      hide NextBooks, QueryUserBytes, Clean;
      NothingDropped(env, NextBooks(env, b, rounds[0]), rounds[1..], c);
    }
  }

  // ---------- what one poll takes ----------

  /** The value of a counter when query number i is served. */
  function Fresh(env: Remote, c: Counter, v: nat, i: nat): nat {
    (if env.queries(i).restart then 0 else v) + Count(env.queries(i).traffic, c)
  }

  /** Its value after that query, if it was for q. */
  function Left(env: Remote, q: Counter, c: Counter, v: nat, i: nat): nat {
    if !env.queries(i).fate.Refused? && (c == q || env.sweeps(q, c)) then 0 else Fresh(env, c, v, i)
  }

  /** What the query for c itself finds, if all queries before it are answered. */
  function Finds(env: Remote, emails: seq<string>, c: Counter, v: nat, i: nat): nat
    requires c.email in emails
    decreases emails
  {
    var e := emails[0];
    var v1 := Left(env, Uplink(e), c, v, i);
    if c == Uplink(e) then Fresh(env, c, v, i)
    else if c == Downlink(e) then Fresh(env, c, v1, i + 1)
    else
      assert emails == [e] + emails[1..];
      Finds(env, emails[1..], c, Left(env, Downlink(e), c, v1, i + 1), i + 2)
  }

  /** The number of queries before the one for c. */
  function Place(emails: seq<string>, c: Counter): nat
    requires c.email in emails
    decreases emails
  {
    assert emails == [emails[0]] + emails[1..];
    if c.email == emails[0] then (if c.Uplink? then 0 else 1) else 2 + Place(emails[1..], c)
  }

  ghost predicate AllAnswered(env: Remote, from: nat, until: nat) {
    forall i | from <= i < until :: env.queries(i).fate.Answered?
  }

  lemma QueryLeaves(env: Remote, s: Server, q: Counter, c: Counter)
    ensures var r, e := QuerySingle(env, true, s, q), env.queries(s.clock);
      && r.server.clock == s.clock + 1
      && Count(r.server.counters, c) == Left(env, q, c, Count(s.counters, c), s.clock)
      && (r.value.Some? <==> e.fate.Answered?)
      && r.taken == if e.fate.Refused? then 0 else Fresh(env, q, Count(s.counters, q), s.clock)
  {
    var e := env.queries(s.clock);
    var kept := if e.restart then map[] else s.counters;
    hide Total, Swept, Alongside;
    TotalCount(kept, e.traffic, c);
    TotalCount(kept, e.traffic, q);
    SweptCount(env, Total(kept, e.traffic), q, c);
  }

  lemma FetchLeaves(env: Remote, s: Server, email: string, c: Counter)
    ensures
      var r, v, i := Fetch(env, true, s, email), Count(s.counters, c), s.clock;
      var v1 := Left(env, Uplink(email), c, v, i);
      && (r.usage.Some? <==> AllAnswered(env, i, i + 2))
      && (r.usage.Some? ==>
            r.server.clock == i + 2 && Count(r.server.counters, c) == Left(env, Downlink(email), c, v1, i + 1))
      && (c == Uplink(email) ==> Count(r.taken, c) == if env.queries(i).fate.Refused? then 0 else Fresh(env, c, v, i))
      && (c == Downlink(email) ==>
            Count(r.taken, c) == if AllAnswered(env, i, i + 1) && !env.queries(i + 1).fate.Refused?
                                 then Fresh(env, c, v1, i + 1) else 0)
      && (c.email != email ==> Count(r.taken, c) == 0)
  {
    hide QuerySingle, Total, Left, Fresh;
    var up := QuerySingle(env, true, s, Uplink(email));
    QueryLeaves(env, s, Uplink(email), c);
    assert AllAnswered(env, s.clock, s.clock + 1) <==> env.queries(s.clock).fate.Answered?;
    if up.value.Some? {
      QueryLeaves(env, up.server, Downlink(email), c);
    }
  }

  /** A poll takes from a counter what its query finds, if all queries before were answered and that one was not
      refused, whether or not any later one fails; otherwise nothing. */
  lemma {:induction false} PollTakes(env: Remote, s: Server, emails: seq<string>, c: Counter)
    requires Distinct(emails) && c.email in emails
    ensures
      var i := s.clock + Place(emails, c);
      Count(QueryUserBytes(env, true, s, emails).taken, c) ==
        if AllAnswered(env, s.clock, i) && !env.queries(i).fate.Refused?
        then Finds(env, emails, c, Count(s.counters, c), s.clock) else 0
    decreases emails
  {
    hide *;
    var first, e, v := Fetch(env, true, s, emails[0]), emails[0], Count(s.counters, c);
    var i := s.clock + Place(emails, c);
    FetchLeaves(env, s, e, c);
    DistinctTail(emails);
    FindsStep(env, emails, c, v, s.clock);
    TakenStep(env, s, emails, c);
    OneAnswer(env, s.clock);
    if c.email != e {
      AnsweredSplit(env, s.clock, s.clock + 2, i);
      if first.usage.Some? {
        PollTakes(env, first.server, emails[1..], c);
      }
    } else if first.usage.Some? {
      PollConserves(env, first.server, emails[1..], c);
    }
  }

  lemma OneAnswer(env: Remote, i: nat)
    ensures AllAnswered(env, i, i)
    ensures AllAnswered(env, i, i + 2) ==>
      AllAnswered(env, i, i + 1) && !env.queries(i).fate.Refused? && !env.queries(i + 1).fate.Refused?
  {
  }

  lemma TakenStep(env: Remote, s: Server, emails: seq<string>, c: Counter)
    requires emails != []
    ensures var first := Fetch(env, true, s, emails[0]);
      Count(QueryUserBytes(env, true, s, emails).taken, c) == Count(first.taken, c) +
        if first.usage.None? then 0 else Count(QueryUserBytes(env, true, first.server, emails[1..]).taken, c)
  {
    var first := Fetch(env, true, s, emails[0]);
    hide Fetch, Total;
    if first.usage.Some? {
      TotalCount(first.taken, QueryUserBytes(env, true, first.server, emails[1..]).taken, c);
    }
  }

  lemma AnsweredSplit(env: Remote, from: nat, middle: nat, until: nat)
    requires from <= middle <= until
    ensures AllAnswered(env, from, until) <==> AllAnswered(env, from, middle) && AllAnswered(env, middle, until)
  {
  }

  lemma FindsStep(env: Remote, emails: seq<string>, c: Counter, v: nat, i: nat)
    requires c.email in emails
    ensures
      var e := emails[0];
      var v1 := Left(env, Uplink(e), c, v, i);
      if c.email == e then
        if c.Uplink? then Place(emails, c) == 0 && Finds(env, emails, c, v, i) == Fresh(env, c, v, i)
        else Place(emails, c) == 1 && Finds(env, emails, c, v, i) == Fresh(env, c, v1, i + 1)
      else
        && c.email in emails[1..] && Place(emails, c) == 2 + Place(emails[1..], c)
        && Finds(env, emails, c, v, i) == Finds(env, emails[1..], c, Left(env, Downlink(e), c, v1, i + 1), i + 2)
  {
    assert emails == [emails[0]] + emails[1..];
    hide Left, Fresh;
  }

  lemma FetchSucceedsIff(env: Remote, reset: bool, s: Server, email: string)
    ensures var r := Fetch(env, reset, s, email);
      && (r.usage.Some? <==> AllAnswered(env, s.clock, s.clock + 2))
      && (r.usage.Some? ==> r.server.clock == s.clock + 2)
  {
    hide Total, Swept, Alongside, Served, Wiped;
    assert AllAnswered(env, s.clock, s.clock + 2)
      <==> env.queries(s.clock).fate.Answered? && env.queries(s.clock + 1).fate.Answered?;
  }

  /** A poll succeeds exactly when each of its queries, two for every address, is answered; with resets or without. */
  lemma {:induction false} PollSucceedsIff(env: Remote, reset: bool, s: Server, emails: seq<string>)
    ensures var r := QueryUserBytes(env, reset, s, emails);
      r.usage.Some? <==> AllAnswered(env, s.clock, s.clock + 2 * |emails|)
    decreases emails
  {
    if emails != [] {
      var first := Fetch(env, reset, s, emails[0]);
      FetchSucceedsIff(env, reset, s, emails[0]);
      AnsweredSplit(env, s.clock, s.clock + 2, s.clock + 2 * |emails|);
      hide Fetch, AllAnswered;
      if first.usage.Some? {
        PollSucceedsIff(env, reset, first.server, emails[1..]);
      }
    }
  }

  /** A push that fails after the read loses the bytes: an answered poll of a counter that held n bytes leaves
      nothing in it and delivers nothing. */
  lemma FailedPushLoses(env: Remote, b: Books, c: Counter)
    requires Clean(env) && AllAnswered(env, b.server.clock, b.server.clock + 2)
    requires forall i | b.server.clock <= i < b.server.clock + 2 :: env.queries(i).traffic == map[]
    ensures
      var b', n := NextBooks(env, b, Poll([c.email], false)), Count(b.server.counters, c);
      && Count(b'.delivered, c) == Count(b.delivered, c)
      && Count(b'.server.counters, c) == 0
      && Count(b'.dropped, c) == Count(b.dropped, c) + n
  {
    var s, emails, b' := b.server, [c.email], NextBooks(env, b, Poll([c.email], false));
    var r := QueryUserBytes(env, true, s, emails);
    assert b'.delivered == b.delivered && b'.server == r.server;
    assert LostIn(env, b, Poll(emails, false), c) == Count(r.lost, c) + Count(r.taken, c);
    hide *;
    RoundDrops(env, b, Poll(emails, false), c);
    CleanPoll(env, s, emails, c);
    PollConserves(env, s, emails, c);
    QuietPoll(env, s, c);
  }

  lemma QuietPoll(env: Remote, s: Server, c: Counter)
    requires Clean(env) && AllAnswered(env, s.clock, s.clock + 2)
    requires forall i | s.clock <= i < s.clock + 2 :: env.queries(i).traffic == map[]
    ensures var r := QueryUserBytes(env, true, s, [c.email]);
      Count(r.taken, c) == Count(s.counters, c) && Arrived(env, c, s.clock, r.server.clock) == 0
  {
    hide *;
    FetchLeaves(env, s, c.email, c);
    QueryOne(env, s, c.email, c);
    QuietTraffic(env, c, Count(s.counters, c), s.clock);
  }

  lemma QueryOne(env: Remote, s: Server, email: string, c: Counter)
    ensures var r, first := QueryUserBytes(env, true, s, [email]), Fetch(env, true, s, email);
      first.usage.Some? ==> r.server == first.server && Count(r.taken, c) == Count(first.taken, c)
  {
    var first, rest: seq<string> := Fetch(env, true, s, email), [];
    TakenStep(env, s, [email], c);
    assert [email][1..] == rest;
    assert QueryUserBytes(env, true, first.server, rest) == Polled(first.server, Some(map[]), map[], map[]);
    hide Fetch, Total;
  }

  lemma QuietTraffic(env: Remote, c: Counter, v: nat, i: nat)
    requires Clean(env) && AllAnswered(env, i, i + 2)
    requires env.queries(i).traffic == map[] && env.queries(i + 1).traffic == map[]
    ensures Arrived(env, c, i, i + 2) == 0 && Fresh(env, c, v, i) == v && Fresh(env, c, v, i + 1) == v
    ensures Count(map[], c) == 0 && !env.queries(i).fate.Refused? && !env.queries(i + 1).fate.Refused?
    ensures Left(env, Uplink(c.email), c, v, i) == if c.Uplink? then 0 else v
    ensures AllAnswered(env, i, i + 1)
  {
    assert Arrived(env, c, i + 2, i + 2) == 0 && Arrived(env, c, i + 1, i + 2) == 0;
  }

  // ---------- the collector ----------

  class StatsService {
    const env: Remote
    var counters: Tally
    var clock: nat

    constructor (env: Remote, counters: Tally)
      ensures this.env == env && Value() == Server(counters, 0)
    {
      this.env, this.counters, clock := env, counters, 0;
    }

    function Value(): Server
      reads this
    {
      Server(counters, clock)
    }

    /** The core's own doings between two polls. */
    method Carry(bytes: Tally)
      modifies this
      ensures Value() == Server(Total(old(counters), bytes), old(clock))
    {
      counters := Total(counters, bytes);
    }

    method Restart()
      modifies this
      ensures Value() == Server(map[], old(clock))
    {
      counters := map[];
    }

    /** The value of one counter, zeroed in the same step when `reset` is set; none on an error. */
    method QueryStats(c: Counter, reset: bool) returns (value: Option<nat>)
      modifies this
      ensures var r := QuerySingle(env, reset, old(Value()), c); Value() == r.server && value == r.value
    {
      var q := env.queries(clock);
      if q.restart {
        counters := map[];
      }
      counters, clock := Total(counters, q.traffic), clock + 1;
      if q.fate.Refused? {
        return None;
      }
      value := if q.fate.Answered? then Some(Count(counters, c)) else None;
      if reset {
        counters := Swept(env, counters, c);
      }
    }
  }

  class Collector {
    const reset: bool
    const stats: StatsService

    constructor (reset: bool, stats: StatsService)
      ensures this.reset == reset && this.stats == stats
    {
      this.reset, this.stats := reset, stats;
    }

    method FetchUser(email: string) returns (usage: Option<Bytes>)
      modifies stats
      ensures var r := Fetch(stats.env, reset, old(stats.Value()), email); stats.Value() == r.server && usage == r.usage
    {
      var up := stats.QueryStats(Uplink(email), reset);
      if up.None? {
        return None;
      }
      var down := stats.QueryStats(Downlink(email), reset);
      if down.None? {
        return None;
      }
      return Some(Bytes(up.value, down.value));
    }

    method QueryUsers(emails: seq<string>) returns (res: Option<map<string, Bytes>>)
      modifies stats
      ensures var r := QueryUserBytes(stats.env, reset, old(stats.Value()), emails);
        stats.Value() == r.server && res == r.usage
    {
      var found: map<string, Bytes> := map[];
      ghost var whole := QueryUserBytes(stats.env, reset, stats.Value(), emails);
      assert emails[0..] == emails;
      NothingReadYet(whole);
      for i := 0 to |emails|
        invariant Continues(whole, found, QueryUserBytes(stats.env, reset, stats.Value(), emails[i..]))
      {
        QueryStep(stats.env, reset, stats.Value(), emails, i, whole, found);
        var usage := FetchUser(emails[i]);
        if usage.None? {
          return None;
        }
        found := found[emails[i] := usage.value];
      }
      assert found + map[] == found;
      return Some(found);
    }
  }

  /** `rest` is what is left of the whole query once `found` has been read. */
  ghost predicate Continues(whole: Polled, found: map<string, Bytes>, rest: Polled) {
    && whole.server == rest.server
    && whole.usage == if rest.usage.None? then None else Some(found + rest.usage.value)
  }

  lemma NothingReadYet(whole: Polled)
    ensures Continues(whole, map[], whole)
  {
    if whole.usage.Some? {
      assert map[] + whole.usage.value == whole.usage.value;
    }
  }

  lemma QueryStep(env: Remote, reset: bool, s: Server, emails: seq<string>, i: nat,
                  whole: Polled, found: map<string, Bytes>)
    requires i < |emails| && Continues(whole, found, QueryUserBytes(env, reset, s, emails[i..]))
    ensures var first := Fetch(env, reset, s, emails[i]);
      if first.usage.None? then whole.server == first.server && whole.usage == None
      else Continues(whole, found[emails[i] := first.usage.value],
                     QueryUserBytes(env, reset, first.server, emails[i + 1..]))
  {
    var first := Fetch(env, reset, s, emails[i]);
    assert emails[i..][1..] == emails[i + 1..];
    if first.usage.Some? {
      var rest := QueryUserBytes(env, reset, first.server, emails[i + 1..]);
      if rest.usage.Some? {
        UpdateThenMerge(found, emails[i], first.usage.value, rest.usage.value);
      }
    }
  }
}
