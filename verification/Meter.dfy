/** Usage accounting over whole runs in delta mode: traffic goes on while a poll reads one counter after another,
    counters may be reset and the core restarted at any time, and posts may be lost. */
module Meter {
  import opened Model
  import opened Diff
  import opened Usage
  import R = ResetRead

  datatype Direction = Up | Down

  function CounterOf(name: string, d: Direction): R.Counter {
    if d.Up? then R.Uplink(name) else R.Downlink(name)
  }

  function Pick(u: Usage, d: Direction): int {
    if d.Up? then u.up else u.down
  }

  // ---------- one poll ----------

  /** `file` names the counter that the core keeps for an address; `lower` the agent's snapshot of it. */
  function Same(address: string): string {
    address
  }

  /** The readings, one query after another, of addresses whose counters the core files by `file`. */
  function Gather(env: R.Remote, file: string -> string, s: R.Server, emails: seq<string>)
    : (R.Server, Option<map<string, Usage>>)
    decreases emails
  {
    if emails == [] then (s, Some(map[]))
    else
      var first := R.Fetch(env, false, s, file(emails[0]));
      if first.usage.None? then (first.server, None)
      else
        var rest := Gather(env, file, first.server, emails[1..]);
        (rest.0,
         if rest.1.None? then None
         else Some(map[emails[0] := Usage(first.usage.value.up, first.usage.value.down)] + rest.1.value))
  }

  function AsUsage(bytes: map<string, R.Bytes>): map<string, Usage> {
    map e | e in bytes :: Usage(bytes[e].up, bytes[e].down)
  }

  /** For a core with a counter for every address these are the readings of the collector. */
  lemma {:induction false} GatherIsQuery(env: R.Remote, s: R.Server, emails: seq<string>)
    ensures var g, r := Gather(env, Same, s, emails), R.QueryUserBytes(env, false, s, emails);
      && g.0 == r.server && (g.1.Some? <==> r.usage.Some?)
      && (g.1.Some? ==> g.1.value == AsUsage(r.usage.value))
    decreases emails
  {
    if emails != [] {
      var first := R.Fetch(env, false, s, emails[0]);
      if first.usage.Some? {
        GatherIsQuery(env, first.server, emails[1..]);
        var rest := R.QueryUserBytes(env, false, first.server, emails[1..]);
        if rest.usage.Some? {
          AsUsagePlus(emails[0], first.usage.value, rest.usage.value);
        }
      }
      hide R.Fetch, AsUsage;
    }
  }

  lemma AsUsagePlus(e: string, u: R.Bytes, m: map<string, R.Bytes>)
    ensures AsUsage(map[e := u] + m) == map[e := Usage(u.up, u.down)] + AsUsage(m)
  {
  }

  function Addresses(emails: seq<string>): set<string> {
    set e | e in emails
  }

  lemma {:induction false} GatherKeys(env: R.Remote, file: string -> string, s: R.Server, emails: seq<string>)
    ensures var g := Gather(env, file, s, emails).1; g.Some? ==> g.value.Keys == Addresses(emails)
    decreases emails
  {
    if emails != [] {
      assert emails == [emails[0]] + emails[1..];
      assert Addresses(emails) == {emails[0]} + Addresses(emails[1..]);
      hide R.Fetch;
      GatherKeys(env, file, R.Fetch(env, false, s, file(emails[0])).server, emails[1..]);
    }
  }

  /** What one poll does to the core's counters and the agent's snapshot, and the deltas it finds; none when a
      query failed, which leaves the snapshot alone. */
  function Measure(lower: string -> string, file: string -> string, env: R.Remote, s: R.Server,
                   snapshot: map<string, Usage>, emails: seq<string>, order: seq<string>)
    : (R.Server, map<string, Usage>, Option<map<string, Usage>>)
    requires IsOrderOf(order, Addresses(emails))
  {
    var (s', answer) := Gather(env, file, s, emails);
    GatherKeys(env, file, s, emails);
    if answer.None? then (s', snapshot, None)
    else
      var (next, deltas) := NormalizeDeltas(lower, snapshot, answer.value, order);
      (s', next, Some(deltas))
  }

  // ---------- whole runs ----------

  /** The core's counters, the agent's snapshot, and the observer's books: bytes carried since a counter's
      first sample, deltas computed, and deltas that reached the panel.  The snapshot is filed by lower-cased
      address, the reports by the name of the counter; a missing entry stands for zero. */
  datatype Meter = Meter(
    server: R.Server,
    snapshot: map<string, Usage>,
    seen: set<R.Counter>,
    carried: R.Counter -> nat,
    reported: map<string, Usage>,
    delivered: map<string, Usage>
  )

  datatype Event =
    | Traffic(bytes: R.Tally)
    | CounterReset(counter: R.Counter)
    | CoreReset
    | Poll(emails: seq<string>, order: seq<string>, posted: bool)

  ghost predicate LegalEvent(event: Event) {
    event.Poll? ==> R.Distinct(event.emails) && IsOrderOf(event.order, Addresses(event.emails))
  }

  ghost predicate Legal(events: seq<Event>) {
    forall i | 0 <= i < |events| :: LegalEvent(events[i])
  }

  function Names(file: string -> string, emails: seq<string>): seq<string> {
    if emails == [] then [] else [file(emails[0])] + Names(file, emails[1..])
  }

  lemma {:induction false} NamesAre(file: string -> string, emails: seq<string>, name: string)
    ensures name in Names(file, emails) <==> exists e :: e in emails && file(e) == name
  {
    if emails != [] {
      assert emails == [emails[0]] + emails[1..];
      NamesAre(file, emails[1..], name);
    }
  }

  function Sampled(file: string -> string, emails: seq<string>): set<R.Counter> {
    (set e | e in emails :: R.Uplink(file(e))) + (set e | e in emails :: R.Downlink(file(e)))
  }

  lemma SampledNames(file: string -> string, emails: seq<string>, c: R.Counter)
    ensures c in Sampled(file, emails) <==> c.email in Names(file, emails)
  {
    NamesAre(file, emails, c.email);
  }

  /** Bytes of a counter that arrive during a successful poll and after the counter's first sample. */
  function Since(env: R.Remote, file: string -> string, seen: set<R.Counter>, emails: seq<string>, c: R.Counter,
                 from: nat, until: nat): nat {
    if c in seen then R.Arrived(env, c, from, until)
    else if c.email in Names(file, emails)
    then R.Arrived(env, c, from + R.Place(Names(file, emails), c) + 1, until)
    else 0
  }

  function Carried(m: Meter, more: R.Counter -> nat): R.Counter -> nat {
    (c: R.Counter) => m.carried(c) + more(c)
  }

  /** A poll of nobody is not made at all. */
  ghost function NextMeter(lower: string -> string, file: string -> string, env: R.Remote, m: Meter,
                           event: Event): Meter
    requires LegalEvent(event)
  {
    match event
    case Traffic(bytes) =>
      m.(server := m.server.(counters := R.Total(m.server.counters, bytes)),
         carried := Carried(m, c => if c in m.seen then R.Count(bytes, c) else 0))
    case CounterReset(c) => m.(server := m.server.(counters := m.server.counters - {c}))
    case CoreReset => m.(server := m.server.(counters := map[]))
    case Poll(emails, order, posted) =>
      if emails == [] then m else PollMeter(lower, file, env, m, emails, order, posted)
  }

  ghost function PollMeter(lower: string -> string, file: string -> string, env: R.Remote, m: Meter,
                           emails: seq<string>, order: seq<string>, posted: bool): Meter
    requires IsOrderOf(order, Addresses(emails))
  {
    var (s', next, deltas) := Measure(lower, file, env, m.server, m.snapshot, emails, order);
    MeasureKeys(lower, file, env, m.server, m.snapshot, emails, order);
    var from, until := m.server.clock, s'.clock;
    if deltas.None? then
      m.(server := s', carried := Carried(m, c => if c in m.seen then R.Arrived(env, c, from, until) else 0))
    else
      m.(server := s', snapshot := next, seen := m.seen + Sampled(file, emails),
         carried := Carried(m, c => Since(env, file, m.seen, emails, c, from, until)),
         reported := Credit(file, m.reported, deltas.value, order),
         delivered := if posted then Credit(file, m.delivered, deltas.value, order) else m.delivered)
  }

  lemma MeasureKeys(lower: string -> string, file: string -> string, env: R.Remote, s: R.Server,
                    snapshot: map<string, Usage>, emails: seq<string>, order: seq<string>)
    requires IsOrderOf(order, Addresses(emails))
    ensures var deltas := Measure(lower, file, env, s, snapshot, emails, order).2;
      deltas.Some? ==> deltas.value.Keys == Addresses(emails) && forall e | e in order :: e in deltas.value
  {
    var answer := Gather(env, file, s, emails).1;
    GatherKeys(env, file, s, emails);
    if answer.Some? {
      WalkOthers(lower, answer.value, order, snapshot, map[]);
    }
  }

  ghost function MeterAfter(lower: string -> string, file: string -> string, env: R.Remote, m: Meter,
                            events: seq<Event>): Meter
    requires Legal(events)
    decreases events
  {
    if events == [] then m
    else MeterAfter(lower, file, env, NextMeter(lower, file, env, m, events[0]), events[1..])
  }

  // ---------- addresses that share nothing ----------

  /** No two of these addresses share a snapshot or a counter. */
  ghost predicate Apart(lower: string -> string, file: string -> string, addresses: iset<string>) {
    forall e, f | e in addresses && f in addresses && (lower(e) == lower(f) || file(e) == file(f)) :: e == f
  }

  /** `key` is the snapshot that goes with a counter, if any of these addresses has that counter. */
  ghost predicate Tied(lower: string -> string, file: string -> string, addresses: iset<string>, name: string,
                       key: Option<string>) {
    forall e | e in addresses :: file(e) == name <==> key == Some(lower(e))
  }

  ghost predicate Over(addresses: iset<string>, events: seq<Event>) {
    forall i | 0 <= i < |events| :: events[i].Poll? ==> forall e | e in events[i].emails :: e in addresses
  }

  lemma KeyFor(lower: string -> string, file: string -> string, addresses: iset<string>, name: string)
    returns (key: Option<string>)
    requires Apart(lower, file, addresses)
    ensures Tied(lower, file, addresses, name, key)
  {
    if e :| e in addresses && file(e) == name {
      key := Some(lower(e));
    } else {
      key := None;
    }
  }

  // ---------- one direction of one counter ----------

  /** What a run means for one counter: its value, its last sample if it is still remembered, whether it was
      ever sampled, and the books. */
  datatype Row = Row(counter: nat, last: Option<int>, seen: bool, carried: nat, reported: int, delivered: int)

  function LastOf(snapshot: map<string, Usage>, key: Option<string>, d: Direction): Option<int> {
    if key.Some? && key.value in snapshot then Some(Pick(snapshot[key.value], d)) else None
  }

  function RowOf(m: Meter, name: string, key: Option<string>, d: Direction): Row {
    var c := CounterOf(name, d);
    Row(R.Count(m.server.counters, c), LastOf(m.snapshot, key, d), c in m.seen, m.carried(c),
        Pick(At(m.reported, name), d), Pick(At(m.delivered, name), d))
  }

  /** What the next sample would add to the reports. */
  function Pending(r: Row): int {
    if r.last.Some? then CounterDelta(r.last.value, r.counter) else 0
  }

  /** A sampled counter is settled: its pending delta is booked and its value remembered. */
  function Settle(r: Row, posted: bool): Row {
    r.(last := Some(r.counter), seen := true, reported := r.reported + Pending(r),
       delivered := r.delivered + if posted then Pending(r) else 0)
  }

  function Carry(r: Row, bytes: nat): Row {
    r.(counter := r.counter + bytes, carried := r.carried + if r.seen then bytes else 0)
  }

  /** A query, of whatever counter, lets time pass: the core may have restarted, and traffic has arrived. */
  function Tick(r: Row, env: R.Remote, c: R.Counter, i: nat): Row {
    Carry(if env.queries(i).restart then r.(counter := 0) else r, R.Count(env.queries(i).traffic, c))
  }

  function Pass(r: Row, env: R.Remote, c: R.Counter, from: nat, until: nat): Row
    decreases until - from
  {
    if from >= until then r else Pass(Tick(r, env, c, from), env, c, from + 1, until)
  }

  /** A poll that succeeds and samples the counter with query number `at`. */
  function PassAndSettle(r: Row, env: R.Remote, c: R.Counter, from: nat, at: nat, until: nat, posted: bool): Row {
    Pass(Settle(Pass(r, env, c, from, at + 1), posted), env, c, at + 1, until)
  }

  /** The number of the query that samples a counter, if any does. */
  function Turn(file: string -> string, emails: seq<string>, c: R.Counter, from: nat): Option<nat> {
    if c.email in Names(file, emails) then Some(from + R.Place(Names(file, emails), c)) else None
  }

  function AfterPoll(r: Row, env: R.Remote, c: R.Counter, from: nat, until: nat, answered: bool, turn: Option<nat>,
                     posted: bool): Row {
    if !answered then Pass(r, env, c, from, until)
    else if turn.Some? then PassAndSettle(r, env, c, from, turn.value, until, posted)
    else Pass(r, env, c, from, until).(last := None)
  }

  function NextRow(file: string -> string, env: R.Remote, m: Meter, r: Row, event: Event, name: string,
                   d: Direction): Row {
    var c := CounterOf(name, d);
    match event
    case Traffic(bytes) => Carry(r, R.Count(bytes, c))
    case CounterReset(b) => if b == c then r.(counter := 0) else r
    case CoreReset => r.(counter := 0)
    case Poll(emails, _, posted) =>
      if emails == [] then r
      else
        var (s', answer) := Gather(env, file, m.server, emails);
        AfterPoll(r, env, c, m.server.clock, s'.clock, answer.Some?, Turn(file, emails, c, m.server.clock), posted)
  }

  lemma {:induction false} PassIs(r: Row, env: R.Remote, c: R.Counter, from: nat, until: nat)
    ensures var p := Pass(r, env, c, from, until);
      && p == r.(counter := p.counter, carried := r.carried + if r.seen then R.Arrived(env, c, from, until) else 0)
    decreases until - from
  {
    if from < until {
      PassIs(Tick(r, env, c, from), env, c, from + 1, until);
    }
  }

  lemma {:induction false} PassCounter(r: Row, r': Row, env: R.Remote, c: R.Counter, from: nat, until: nat)
    requires r.counter == r'.counter
    ensures Pass(r, env, c, from, until).counter == Pass(r', env, c, from, until).counter
    decreases until - from
  {
    if from < until {
      PassCounter(Tick(r, env, c, from), Tick(r', env, c, from), env, c, from + 1, until);
    }
  }

  lemma {:induction false} PassSplit(r: Row, env: R.Remote, c: R.Counter, from: nat, middle: nat, until: nat)
    requires from <= middle <= until
    ensures Pass(r, env, c, from, until) == Pass(Pass(r, env, c, from, middle), env, c, middle, until)
    decreases middle - from
  {
    if from < middle {
      hide Tick;
      PassSplit(Tick(r, env, c, from), env, c, from + 1, middle, until);
    }
  }

  // ---------- what the queries of a poll read ----------

  lemma QueryReads(env: R.Remote, s: R.Server, q: R.Counter, c: R.Counter)
    ensures var r := R.QuerySingle(env, false, s, q);
      && r.server.clock == s.clock + 1
      && R.Count(r.server.counters, c) == R.Fresh(env, c, R.Count(s.counters, c), s.clock)
      && (r.value.Some? ==> r.value.value == R.Fresh(env, q, R.Count(s.counters, q), s.clock))
  {
    var e := env.queries(s.clock);
    var kept := if e.restart then map[] else s.counters;
    hide R.Total;
    R.TotalCount(kept, e.traffic, c);
    R.TotalCount(kept, e.traffic, q);
  }

  /** The bare value of a counter, as a row without books. */
  function Bare(v: nat): Row {
    Row(v, None, false, 0, 0, 0)
  }

  function Value(env: R.Remote, c: R.Counter, v: nat, from: nat, until: nat): nat {
    Pass(Bare(v), env, c, from, until).counter
  }

  lemma ValueOne(env: R.Remote, c: R.Counter, v: nat, i: nat)
    ensures Value(env, c, v, i, i + 1) == R.Fresh(env, c, v, i)
  {
    var r := Tick(Bare(v), env, c, i);
    assert Pass(r, env, c, i + 1, i + 1) == r;
  }

  lemma ValueSplit(env: R.Remote, c: R.Counter, v: nat, from: nat, middle: nat, until: nat)
    requires from <= middle <= until
    ensures Value(env, c, v, from, until) == Value(env, c, Value(env, c, v, from, middle), middle, until)
  {
    PassSplit(Bare(v), env, c, from, middle, until);
    PassCounter(Pass(Bare(v), env, c, from, middle), Bare(Value(env, c, v, from, middle)), env, c, middle, until);
  }

  lemma FetchReads(env: R.Remote, s: R.Server, name: string, c: R.Counter)
    ensures
      var r, v := R.Fetch(env, false, s, name), R.Count(s.counters, c);
      && s.clock < r.server.clock <= s.clock + 2
      && R.Count(r.server.counters, c) == Value(env, c, v, s.clock, r.server.clock)
      && (r.usage.Some? ==>
            && r.server.clock == s.clock + 2
            && (c == R.Uplink(name) ==> r.usage.value.up == Value(env, c, v, s.clock, s.clock + 1))
            && (c == R.Downlink(name) ==> r.usage.value.down == Value(env, c, v, s.clock, s.clock + 2)))
  {
    hide R.QuerySingle, Value, R.Fresh;
    var v, up := R.Count(s.counters, c), R.QuerySingle(env, false, s, R.Uplink(name));
    QueryReads(env, s, R.Uplink(name), c);
    ValueOne(env, c, v, s.clock);
    if up.value.Some? {
      QueryReads(env, up.server, R.Downlink(name), c);
      ValueOne(env, c, R.Count(up.server.counters, c), s.clock + 1);
      ValueSplit(env, c, v, s.clock, s.clock + 1, s.clock + 2);
    }
  }

  lemma {:induction false} GatherPasses(env: R.Remote, file: string -> string, s: R.Server, emails: seq<string>,
                                        c: R.Counter)
    ensures var g := Gather(env, file, s, emails);
      && g.0.clock >= s.clock && (g.1.Some? ==> g.0.clock == s.clock + 2 * |emails|)
      && R.Count(g.0.counters, c) == Value(env, c, R.Count(s.counters, c), s.clock, g.0.clock)
    decreases emails
  {
    if emails != [] {
      var first := R.Fetch(env, false, s, file(emails[0]));
      FetchReads(env, s, file(emails[0]), c);
      if first.usage.Some? {
        hide R.Fetch, Value;
        GatherPasses(env, file, first.server, emails[1..], c);
        ValueSplit(env, c, R.Count(s.counters, c), s.clock, first.server.clock,
                   Gather(env, file, first.server, emails[1..]).0.clock);
      }
    }
  }

  lemma PlaceBound(names: seq<string>, c: R.Counter)
    requires c.email in names
    ensures R.Place(names, c) < 2 * |names|
    decreases names
  {
    if names[0] != c.email {
      assert names == [names[0]] + names[1..];
      PlaceBound(names[1..], c);
    }
  }

  ghost predicate Alone(file: string -> string, emails: seq<string>, e: string) {
    forall f | f in emails && file(f) == file(e) :: f == e
  }

  lemma AloneTail(file: string -> string, emails: seq<string>, e: string)
    requires emails != [] && Alone(file, emails, e)
    ensures Alone(file, emails[1..], e) && (emails[0] != e ==> file(emails[0]) != file(e))
  {
  }

  /** The value of a counter when the first query for it comes. */
  function Awaited(env: R.Remote, file: string -> string, s: R.Server, emails: seq<string>, c: R.Counter): nat
    requires c.email in Names(file, emails)
  {
    Value(env, c, R.Count(s.counters, c), s.clock, s.clock + R.Place(Names(file, emails), c) + 1)
  }

  /** The poll reads, for an address, the value that its counter has when its query comes. */
  ghost predicate ReadsValue(env: R.Remote, file: string -> string, s: R.Server, emails: seq<string>, e: string,
                             d: Direction) {
    var c, g := CounterOf(file(e), d), Gather(env, file, s, emails).1;
    && g.Some? && e in g.value && file(e) in Names(file, emails)
    && Pick(g.value[e], d) == Awaited(env, file, s, emails, c)
  }

  /** That holds of every address whose counter no other has. */
  lemma {:induction false} GatherReads(env: R.Remote, file: string -> string, s: R.Server, emails: seq<string>,
                                       e: string, d: Direction)
    requires R.Distinct(emails) && e in emails && Alone(file, emails, e)
    requires Gather(env, file, s, emails).1.Some?
    ensures ReadsValue(env, file, s, emails, e, d)
    decreases emails
  {
    hide *;
    TailMember(emails, e);
    AloneTail(file, emails, e);
    if emails[0] == e {
      HeadReads(env, file, s, emails, d);
    } else {
      GatherStep(env, file, s, emails);
      GatherReads(env, file, R.Fetch(env, false, s, file(emails[0])).server, emails[1..], e, d);
      TailReads(env, file, s, emails, e, d);
    }
  }

  lemma TailMember(emails: seq<string>, e: string)
    requires R.Distinct(emails) && e in emails
    ensures R.Distinct(emails[1..]) && (e == emails[0] <==> e !in emails[1..])
  {
    R.DistinctTail(emails);
  }

  lemma HeadReads(env: R.Remote, file: string -> string, s: R.Server, emails: seq<string>, d: Direction)
    requires emails != [] && R.Distinct(emails) && Gather(env, file, s, emails).1.Some?
    ensures ReadsValue(env, file, s, emails, emails[0], d)
  {
    hide *;
    var e, c, first := emails[0], CounterOf(file(emails[0]), d), R.Fetch(env, false, s, file(emails[0]));
    GatherHead(env, file, s, emails);
    PickHead(file(e), first.usage.value, d);
    PlaceStep(file, emails, c);
    FetchReads(env, s, file(e), c);
    ReadsValueIf(env, file, s, emails, e, d);
  }

  lemma GatherHead(env: R.Remote, file: string -> string, s: R.Server, emails: seq<string>)
    requires emails != [] && R.Distinct(emails) && Gather(env, file, s, emails).1.Some?
    ensures
      var g, first := Gather(env, file, s, emails).1.value, R.Fetch(env, false, s, file(emails[0]));
      first.usage.Some? && emails[0] in g && g[emails[0]] == Usage(first.usage.value.up, first.usage.value.down)
  {
    TailMember(emails, emails[0]);
    GatherStep(env, file, s, emails);
    NotRead(env, file, R.Fetch(env, false, s, file(emails[0])).server, emails[1..], emails[0]);
    hide R.Fetch, Gather, R.Distinct;
  }

  lemma PickHead(name: string, u: R.Bytes, d: Direction)
    ensures var c := CounterOf(name, d);
      && c.email == name && (c == R.Uplink(name) <==> d.Up?) && (c == R.Downlink(name) <==> d.Down?)
      && (c.Uplink? <==> d.Up?) && Pick(Usage(u.up, u.down), d) == if d.Up? then u.up else u.down
  {
  }

  lemma ReadsValueIf(env: R.Remote, file: string -> string, s: R.Server, emails: seq<string>, e: string, d: Direction)
    requires file(e) in Names(file, emails) && CounterOf(file(e), d).email == file(e)
    requires Gather(env, file, s, emails).1.Some? && e in Gather(env, file, s, emails).1.value
    requires
      var c := CounterOf(file(e), d);
      Pick(Gather(env, file, s, emails).1.value[e], d)
        == Value(env, c, R.Count(s.counters, c), s.clock, s.clock + R.Place(Names(file, emails), c) + 1)
    ensures ReadsValue(env, file, s, emails, e, d)
  {
    hide Gather, Value, Names, R.Place, R.Count, Pick;
  }

  lemma TailReads(env: R.Remote, file: string -> string, s: R.Server, emails: seq<string>, e: string, d: Direction)
    requires emails != [] && file(emails[0]) != file(e) && emails[0] != e && Gather(env, file, s, emails).1.Some?
    requires ReadsValue(env, file, R.Fetch(env, false, s, file(emails[0])).server, emails[1..], e, d)
    ensures ReadsValue(env, file, s, emails, e, d)
  {
    var c := CounterOf(file(e), d);
    assert c.email == file(e);
    hide R.Fetch, Gather, Names, R.Place, Value, Awaited, Pick, CounterOf;
    GatherStep(env, file, s, emails);
    AwaitedStep(env, file, s, emails, c);
  }

  lemma AwaitedStep(env: R.Remote, file: string -> string, s: R.Server, emails: seq<string>, c: R.Counter)
    requires emails != [] && c.email != file(emails[0]) && c.email in Names(file, emails[1..])
    requires R.Fetch(env, false, s, file(emails[0])).usage.Some?
    ensures c.email in Names(file, emails)
    ensures Awaited(env, file, s, emails, c)
         == Awaited(env, file, R.Fetch(env, false, s, file(emails[0])).server, emails[1..], c)
  {
    hide R.Fetch, Names, R.Place, Value, R.Count;
    PlaceStep(file, emails, c);
    ValueAfterFetch(env, s, file(emails[0]), c, s.clock + R.Place(Names(file, emails), c) + 1);
  }

  lemma ValueAfterFetch(env: R.Remote, s: R.Server, name: string, c: R.Counter, until: nat)
    requires R.Fetch(env, false, s, name).usage.Some? && until >= s.clock + 2
    ensures var first := R.Fetch(env, false, s, name);
      && first.server.clock == s.clock + 2
      && Value(env, c, R.Count(first.server.counters, c), s.clock + 2, until)
           == Value(env, c, R.Count(s.counters, c), s.clock, until)
  {
    FetchReads(env, s, name, c);
    hide R.Fetch, Value, R.Count;
    ValueSplit(env, c, R.Count(s.counters, c), s.clock, s.clock + 2, until);
  }

  lemma NotRead(env: R.Remote, file: string -> string, s: R.Server, emails: seq<string>, e: string)
    requires e !in emails
    ensures var g := Gather(env, file, s, emails).1; g.Some? ==> e !in g.value
  {
    GatherKeys(env, file, s, emails);
  }

  lemma GatherStep(env: R.Remote, file: string -> string, s: R.Server, emails: seq<string>)
    requires emails != []
    ensures
      var first := R.Fetch(env, false, s, file(emails[0]));
      var g, rest := Gather(env, file, s, emails), Gather(env, file, first.server, emails[1..]);
      && (g.1.Some? <==> first.usage.Some? && rest.1.Some?)
      && (g.1.Some? ==>
            g.1.value == map[emails[0] := Usage(first.usage.value.up, first.usage.value.down)] + rest.1.value)
      && g.0 == if first.usage.Some? then rest.0 else first.server
  {
    hide R.Fetch;
  }

  lemma PlaceStep(file: string -> string, emails: seq<string>, c: R.Counter)
    requires emails != []
    ensures c.email in Names(file, emails) <==> c.email == file(emails[0]) || c.email in Names(file, emails[1..])
    ensures c.email == file(emails[0]) ==> R.Place(Names(file, emails), c) == if c.Uplink? then 0 else 1
    ensures c.email != file(emails[0]) && c.email in Names(file, emails[1..]) ==>
              R.Place(Names(file, emails), c) == 2 + R.Place(Names(file, emails[1..]), c)
  {
    assert Names(file, emails) == [file(emails[0])] + Names(file, emails[1..]);
    assert Names(file, emails)[1..] == Names(file, emails[1..]);
  }

  // ---------- what a poll does to one row ----------

  lemma {:induction false} ShareOfOne(file: string -> string, deltas: map<string, Usage>, order: seq<string>,
                                      emails: set<string>, e: string)
    requires IsOrderOf(order, emails) && emails <= deltas.Keys && e in emails
    requires forall f | f in emails && file(f) == file(e) :: f == e
    ensures forall f | f in order :: f in deltas
    ensures Share(file, deltas, order, file(e)) == deltas[e]
  {
    var i := PositionOf(order, emails, e);
    OrderWithout(order, emails, i);
    ShareWithout(file, deltas, order, i, file(e));
    ShareOfNone(file, deltas, Dropped(order, i), file(e));
    SumZero(deltas[e]);
  }

  lemma {:induction false} ShareOfNone(file: string -> string, deltas: map<string, Usage>, order: seq<string>,
                                       name: string)
    requires forall f | f in order :: f in deltas && file(f) != name
    ensures Share(file, deltas, order, name) == ZERO
    decreases order
  {
    if order != [] {
      assert order == [order[0]] + order[1..];
      ShareOfNone(file, deltas, order[1..], name);
      ShareSkips(file, deltas, order, name);
    } else {
      assert Share(file, deltas, order, name) == ZERO;
    }
    hide Share;
  }

  lemma ShareSkips(file: string -> string, deltas: map<string, Usage>, order: seq<string>, name: string)
    requires order != [] && (forall f | f in order :: f in deltas) && file(order[0]) != name
    ensures forall f | f in order[1..] :: f in order
    ensures Share(file, deltas, order, name) == Share(file, deltas, order[1..], name)
  {
    assert order == [order[0]] + order[1..];
    ShareCons(file, deltas, order, name);
    SumZero(Share(file, deltas, order[1..], name));
    hide Share, Sum;
  }

  lemma ApartFolded(lower: string -> string, file: string -> string, addresses: iset<string>, emails: seq<string>)
    requires Apart(lower, file, addresses) && forall e | e in emails :: e in addresses
    ensures DistinctFolded(lower, Addresses(emails))
  {
  }

  /** What a successful poll makes of an address: its snapshot, its delta and its share in the books. */
  lemma MeasureHit(lower: string -> string, file: string -> string, addresses: iset<string>, env: R.Remote, s: R.Server,
                   snapshot: map<string, Usage>, emails: seq<string>, order: seq<string>, e: string)
    requires Apart(lower, file, addresses) && (forall f | f in emails :: f in addresses)
    requires IsOrderOf(order, Addresses(emails)) && e in emails && Gather(env, file, s, emails).1.Some?
    ensures
      var (_, next, deltas) := Measure(lower, file, env, s, snapshot, emails, order);
      var now := Gather(env, file, s, emails).1.value;
      && deltas.Some? && e in now && lower(e) in next && next[lower(e)] == now[e]
      && (forall f | f in order :: f in deltas.value)
      && Share(file, deltas.value, order, file(e)) == SampleDelta(snapshot, lower(e), now[e])
  {
    var now := Gather(env, file, s, emails).1.value;
    GatherKeys(env, file, s, emails);
    MeasureIs(lower, file, env, s, snapshot, emails, order);
    ApartFolded(lower, file, addresses, emails);
    ApartAlone(lower, file, addresses, emails, e);
    AloneAmong(file, emails, e);
    hide *;
    NormalizeAt(lower, snapshot, now, order, e);
    ShareOfOne(file, NormalizeDeltas(lower, snapshot, now, order).1, order, Addresses(emails), e);
  }

  lemma MeasureIs(lower: string -> string, file: string -> string, env: R.Remote, s: R.Server,
                  snapshot: map<string, Usage>, emails: seq<string>, order: seq<string>)
    requires IsOrderOf(order, Addresses(emails)) && Gather(env, file, s, emails).1.Some?
    ensures
      var now := Gather(env, file, s, emails).1.value;
      && now.Keys == Addresses(emails) && (forall f | f in order :: f in now && f in emails)
      && Measure(lower, file, env, s, snapshot, emails, order)
           == (Gather(env, file, s, emails).0, NormalizeDeltas(lower, snapshot, now, order).0,
               Some(NormalizeDeltas(lower, snapshot, now, order).1))
  {
    GatherKeys(env, file, s, emails);
    hide Gather, NormalizeDeltas;
  }

  lemma AloneAmong(file: string -> string, emails: seq<string>, e: string)
    requires e in emails && Alone(file, emails, e)
    ensures e in Addresses(emails) && forall f | f in Addresses(emails) && file(f) == file(e) :: f == e
  {
  }

  lemma NormalizeAt(lower: string -> string, snapshot: map<string, Usage>, current: map<string, Usage>,
                    order: seq<string>, e: string)
    requires IsOrderOf(order, current.Keys) && DistinctFolded(lower, current.Keys) && e in current
    ensures var (next, deltas) := NormalizeDeltas(lower, snapshot, current, order);
      && deltas.Keys == current.Keys && lower(e) in next && next[lower(e)] == current[e]
      && deltas[e] == SampleDelta(snapshot, lower(e), current[e])
  {
    NormalizeExact(lower, snapshot, current, order);
    assert lower(e) in Present(lower, current.Keys);
    hide NormalizeDeltas, SampleDelta;
  }

  /** A counter that no polled address has gets no share, and a snapshot that none of them has is forgotten. */
  lemma MeasureMiss(lower: string -> string, file: string -> string, addresses: iset<string>, env: R.Remote,
                    s: R.Server, snapshot: map<string, Usage>, emails: seq<string>, order: seq<string>, name: string,
                    key: Option<string>)
    requires Apart(lower, file, addresses) && (forall f | f in emails :: f in addresses)
    requires IsOrderOf(order, Addresses(emails)) && Tied(lower, file, addresses, name, key)
    requires name !in Names(file, emails) && Gather(env, file, s, emails).1.Some?
    ensures
      var (_, next, deltas) := Measure(lower, file, env, s, snapshot, emails, order);
      && deltas.Some? && (key.Some? ==> key.value !in next)
      && (forall f | f in order :: f in deltas.value)
      && Share(file, deltas.value, order, name) == ZERO
  {
    hide *;
    var now := Gather(env, file, s, emails).1.value;
    MeasureIs(lower, file, env, s, snapshot, emails, order);
    ApartFolded(lower, file, addresses, emails);
    NotPolled(lower, file, addresses, emails, order, name, key);
    NormalizeKeys(lower, snapshot, now, order);
    ShareOfNone(file, NormalizeDeltas(lower, snapshot, now, order).1, order, name);
  }

  lemma NormalizeKeys(lower: string -> string, snapshot: map<string, Usage>, current: map<string, Usage>,
                      order: seq<string>)
    requires IsOrderOf(order, current.Keys) && DistinctFolded(lower, current.Keys)
    ensures forall f | f in order :: f in current
    ensures var (next, deltas) := NormalizeDeltas(lower, snapshot, current, order);
      next.Keys == Present(lower, current.Keys) && forall f | f in order :: f in deltas
  {
    NormalizeExact(lower, snapshot, current, order);
    hide NormalizeDeltas, Present, DistinctFolded;
  }

  lemma NotPolled(lower: string -> string, file: string -> string, addresses: iset<string>, emails: seq<string>,
                  order: seq<string>, name: string, key: Option<string>)
    requires IsOrderOf(order, Addresses(emails)) && (forall f | f in emails :: f in addresses)
    requires Tied(lower, file, addresses, name, key) && name !in Names(file, emails)
    ensures key.Some? ==> key.value !in Present(lower, Addresses(emails))
    ensures forall f | f in order :: file(f) != name
  {
    NamesAre(file, emails, name);
    forall e | e in emails ensures file(e) != name && key != Some(lower(e)) {}
    hide Names, Tied;
  }

  /** The value of a row after a stretch of queries is that of its counter. */
  lemma PassValue(r: Row, env: R.Remote, c: R.Counter, from: nat, until: nat)
    ensures Pass(r, env, c, from, until)
         == r.(counter := Value(env, c, r.counter, from, until),
               carried := r.carried + if r.seen then R.Arrived(env, c, from, until) else 0)
  {
    PassIs(r, env, c, from, until);
    PassCounter(r, Bare(r.counter), env, c, from, until);
  }

  /** The row after a successful poll that sampled its counter, in closed form. */
  lemma PassAndSettleIs(r: Row, env: R.Remote, c: R.Counter, from: nat, at: nat, until: nat, posted: bool)
    requires from <= at < until
    ensures
      var now := Value(env, c, r.counter, from, at + 1);
      var delta := if r.last.Some? then CounterDelta(r.last.value, now) else 0;
      PassAndSettle(r, env, c, from, at, until, posted)
        == Row(Value(env, c, r.counter, from, until), Some(now), true,
               r.carried + if r.seen then R.Arrived(env, c, from, until) else R.Arrived(env, c, at + 1, until),
               r.reported + delta, r.delivered + if posted then delta else 0)
  {
    hide Pass, Value, R.Arrived;
    PassValue(r, env, c, from, at + 1);
    PassValue(Settle(Pass(r, env, c, from, at + 1), posted), env, c, at + 1, until);
    ValueSplit(env, c, r.counter, from, at + 1, until);
    R.ArrivedSplit(env, c, from, at + 1, until);
  }

  lemma FailedRow(lower: string -> string, file: string -> string, env: R.Remote, m: Meter, emails: seq<string>,
                  order: seq<string>, posted: bool, name: string, key: Option<string>, d: Direction)
    requires IsOrderOf(order, Addresses(emails)) && Gather(env, file, m.server, emails).1.None?
    ensures
      RowOf(PollMeter(lower, file, env, m, emails, order, posted), name, key, d)
        == Pass(RowOf(m, name, key, d), env, CounterOf(name, d), m.server.clock,
                Gather(env, file, m.server, emails).0.clock)
  {
    var c, until := CounterOf(name, d), Gather(env, file, m.server, emails).0.clock;
    GatherPasses(env, file, m.server, emails, c);
    hide Gather, Pass, Value, R.Arrived, NormalizeDeltas;
    PassValue(RowOf(m, name, key, d), env, c, m.server.clock, until);
  }

  lemma PickSum(x: Usage, y: Usage, d: Direction)
    ensures Pick(Sum(x, y), d) == Pick(x, d) + Pick(y, d)
  {
  }

  /** The books after a successful poll. */
  ghost predicate BooksKept(file: string -> string, env: R.Remote, m: Meter, m': Meter, emails: seq<string>,
                            order: seq<string>, posted: bool, deltas: map<string, Usage>) {
    && (forall f | f in order :: f in deltas)
    && m'.reported == Credit(file, m.reported, deltas, order)
    && m'.delivered == (if posted then Credit(file, m.delivered, deltas, order) else m.delivered)
    && m'.seen == m.seen + Sampled(file, emails)
    && forall c :: m'.carried(c) == m.carried(c) + Since(env, file, m.seen, emails, c, m.server.clock, m'.server.clock)
  }

  lemma PollBooks(lower: string -> string, file: string -> string, env: R.Remote, m: Meter, emails: seq<string>,
                  order: seq<string>, posted: bool)
    requires IsOrderOf(order, Addresses(emails)) && Gather(env, file, m.server, emails).1.Some?
    ensures
      var m' := PollMeter(lower, file, env, m, emails, order, posted);
      var (s', next, deltas) := Measure(lower, file, env, m.server, m.snapshot, emails, order);
      && deltas.Some? && m'.server == s' == Gather(env, file, m.server, emails).0 && m'.snapshot == next
      && BooksKept(file, env, m, m', emails, order, posted, deltas.value)
  {
    MeasureKeys(lower, file, env, m.server, m.snapshot, emails, order);
    MeasureIs(lower, file, env, m.server, m.snapshot, emails, order);
    hide Gather, Measure, Credit, Sampled, Since, Addresses, IsOrderOf;
  }

  lemma RowIs(m: Meter, name: string, key: Option<string>, d: Direction)
    ensures var c := CounterOf(name, d);
      && c.email == name
      && RowOf(m, name, key, d)
           == Row(R.Count(m.server.counters, c), LastOf(m.snapshot, key, d), c in m.seen, m.carried(c),
                  Pick(At(m.reported, name), d), Pick(At(m.delivered, name), d))
  {
  }

  lemma PickCredit(file: string -> string, books: map<string, Usage>, deltas: map<string, Usage>, order: seq<string>,
                   name: string, d: Direction)
    requires forall f | f in order :: f in deltas
    ensures Pick(At(Credit(file, books, deltas, order), name), d)
         == Pick(At(books, name), d) + Pick(Share(file, deltas, order, name), d)
  {
    CreditIsShare(file, books, deltas, order, name);
    hide Credit, Share, At;
    PickSum(At(books, name), Share(file, deltas, order, name), d);
  }

  /** Counter, first sample and bytes carried after a successful poll. */
  lemma PolledCarried(lower: string -> string, file: string -> string, env: R.Remote, m: Meter, emails: seq<string>,
                      order: seq<string>, posted: bool, name: string, key: Option<string>, d: Direction)
    requires IsOrderOf(order, Addresses(emails)) && Gather(env, file, m.server, emails).1.Some?
    ensures
      var r, r' := RowOf(m, name, key, d), RowOf(PollMeter(lower, file, env, m, emails, order, posted), name, key, d);
      var c, g := CounterOf(name, d), Gather(env, file, m.server, emails);
      && r'.counter == R.Count(g.0.counters, c) && r'.seen == (r.seen || name in Names(file, emails))
      && r'.carried == r.carried + Since(env, file, m.seen, emails, c, m.server.clock, g.0.clock)
  {
    PollBooks(lower, file, env, m, emails, order, posted);
    SampledNames(file, emails, CounterOf(name, d));
    hide Gather, Measure, Credit, Sampled, Since, Names, PollMeter, Addresses, IsOrderOf, LastOf, At;
  }

  /** Snapshot and reports after a successful poll. */
  lemma PolledReported(lower: string -> string, file: string -> string, env: R.Remote, m: Meter, emails: seq<string>,
                       order: seq<string>, posted: bool, name: string, key: Option<string>, d: Direction)
    requires IsOrderOf(order, Addresses(emails)) && Gather(env, file, m.server, emails).1.Some?
    ensures
      var r, r' := RowOf(m, name, key, d), RowOf(PollMeter(lower, file, env, m, emails, order, posted), name, key, d);
      var (_, next, deltas) := Measure(lower, file, env, m.server, m.snapshot, emails, order);
      && deltas.Some? && (forall f | f in order :: f in deltas.value)
      && r'.last == LastOf(next, key, d)
      && r'.reported == r.reported + Pick(Share(file, deltas.value, order, name), d)
      && r'.delivered == r.delivered + if posted then Pick(Share(file, deltas.value, order, name), d) else 0
  {
    var deltas := Measure(lower, file, env, m.server, m.snapshot, emails, order).2;
    PollBooks(lower, file, env, m, emails, order, posted);
    PickCredit(file, m.reported, deltas.value, order, name, d);
    PickCredit(file, m.delivered, deltas.value, order, name, d);
    hide Gather, Measure, Credit, Sampled, Since, Names, PollMeter, Addresses, IsOrderOf, LastOf, At, Pick, Share;
  }

  lemma MissRow(lower: string -> string, file: string -> string, addresses: iset<string>, env: R.Remote, m: Meter,
                emails: seq<string>, order: seq<string>, posted: bool, name: string, key: Option<string>, d: Direction)
    requires Apart(lower, file, addresses) && (forall e | e in emails :: e in addresses)
    requires IsOrderOf(order, Addresses(emails)) && Tied(lower, file, addresses, name, key)
    requires Gather(env, file, m.server, emails).1.Some? && name !in Names(file, emails)
    ensures
      RowOf(PollMeter(lower, file, env, m, emails, order, posted), name, key, d)
        == Pass(RowOf(m, name, key, d), env, CounterOf(name, d), m.server.clock,
                Gather(env, file, m.server, emails).0.clock).(last := None)
  {
    var c, until := CounterOf(name, d), Gather(env, file, m.server, emails).0.clock;
    var r := RowOf(m, name, key, d);
    assert c.email == name && r.counter == R.Count(m.server.counters, c) && r.seen == (c in m.seen);
    hide *;
    MeasureMiss(lower, file, addresses, env, m.server, m.snapshot, emails, order, name, key);
    MissSnapshot(Measure(lower, file, env, m.server, m.snapshot, emails, order).1, key, d);
    PolledCarried(lower, file, env, m, emails, order, posted, name, key, d);
    PolledReported(lower, file, env, m, emails, order, posted, name, key, d);
    MissSince(env, file, m.seen, emails, c, m.server.clock, until);
    GatherPasses(env, file, m.server, emails, c);
    PassValue(r, env, c, m.server.clock, until);
  }

  lemma MissSince(env: R.Remote, file: string -> string, seen: set<R.Counter>, emails: seq<string>, c: R.Counter,
                  from: nat, until: nat)
    requires c.email !in Names(file, emails)
    ensures Since(env, file, seen, emails, c, from, until) == if c in seen then R.Arrived(env, c, from, until) else 0
  {
  }

  lemma MissSnapshot(next: map<string, Usage>, key: Option<string>, d: Direction)
    requires key.Some? ==> key.value !in next
    ensures LastOf(next, key, d) == None && Pick(ZERO, d) == 0
  {
  }

  /** The snapshot and the share of an address after a successful poll, in one direction. */
  lemma HitSample(lower: string -> string, file: string -> string, addresses: iset<string>, env: R.Remote, m: Meter,
                  emails: seq<string>, order: seq<string>, e: string, d: Direction)
    requires Apart(lower, file, addresses) && (forall f | f in emails :: f in addresses)
    requires R.Distinct(emails) && IsOrderOf(order, Addresses(emails)) && e in emails
    requires Gather(env, file, m.server, emails).1.Some? && file(e) in Names(file, emails)
    ensures e in Gather(env, file, m.server, emails).1.value
    ensures
      var (_, next, deltas) := Measure(lower, file, env, m.server, m.snapshot, emails, order);
      && deltas.Some? && (forall f | f in order :: f in deltas.value)
      && LastOf(next, Some(lower(e)), d) == Some(Pick(Gather(env, file, m.server, emails).1.value[e], d))
      && Pick(Share(file, deltas.value, order, file(e)), d) == Step(m, env, file, emails, e, Some(lower(e)), d)
  {
    var (_, next, deltas) := Measure(lower, file, env, m.server, m.snapshot, emails, order);
    MeasureHit(lower, file, addresses, env, m.server, m.snapshot, emails, order, e);
    var now := Gather(env, file, m.server, emails).1.value[e];
    assert Step(m, env, file, emails, e, Some(lower(e)), d)
        == if LastOf(m.snapshot, Some(lower(e)), d).Some?
           then CounterDelta(LastOf(m.snapshot, Some(lower(e)), d).value, Pick(now, d)) else 0;
    hide *;
    HitSnapshot(m.snapshot, next, lower(e), now, d);
  }

  /** The delta that a poll finds for an address in one direction. */
  function Step(m: Meter, env: R.Remote, file: string -> string, emails: seq<string>, e: string, key: Option<string>,
                d: Direction): int
    requires Gather(env, file, m.server, emails).1.Some? && e in Gather(env, file, m.server, emails).1.value
  {
    var last := LastOf(m.snapshot, key, d);
    if last.Some? then CounterDelta(last.value, Pick(Gather(env, file, m.server, emails).1.value[e], d)) else 0
  }

  function HitTarget(file: string -> string, env: R.Remote, m: Meter, emails: seq<string>, posted: bool, e: string,
                     key: Option<string>, d: Direction): Row
    requires file(e) in Names(file, emails)
  {
    var c, from := CounterOf(file(e), d), m.server.clock;
    PassAndSettle(RowOf(m, file(e), key, d), env, c, from, from + R.Place(Names(file, emails), c),
                  Gather(env, file, m.server, emails).0.clock, posted)
  }

  /** That row in closed form. */
  lemma HitTargetIs(file: string -> string, env: R.Remote, m: Meter, emails: seq<string>, posted: bool, e: string,
                    key: Option<string>, d: Direction)
    requires R.Distinct(emails) && e in emails && Alone(file, emails, e) && Gather(env, file, m.server, emails).1.Some?
    requires file(e) in Names(file, emails)
    ensures e in Gather(env, file, m.server, emails).1.value
    ensures
      var c, g, r := CounterOf(file(e), d), Gather(env, file, m.server, emails), RowOf(m, file(e), key, d);
      var delta := Step(m, env, file, emails, e, key, d);
      HitTarget(file, env, m, emails, posted, e, key, d)
        == Row(R.Count(g.0.counters, c), Some(Pick(g.1.value[e], d)), true,
               r.carried + Since(env, file, m.seen, emails, c, m.server.clock, g.0.clock), r.reported + delta,
               r.delivered + if posted then delta else 0)
  {
    hide *;
    var c, r := CounterOf(file(e), d), RowOf(m, file(e), key, d);
    var from, until := m.server.clock, Gather(env, file, m.server, emails).0.clock;
    RowIs(m, file(e), key, d);
    HitAwaited(env, file, m.server, emails, e, d);
    HitTargetDefinition(file, env, m, emails, posted, e, key, d);
    NamesLength(file, emails);
    PlaceBound(Names(file, emails), c);
    GatherPasses(env, file, m.server, emails, c);
    PassAndSettleIs(r, env, c, from, from + R.Place(Names(file, emails), c), until, posted);
  }

  lemma HitTargetDefinition(file: string -> string, env: R.Remote, m: Meter, emails: seq<string>, posted: bool,
                            e: string, key: Option<string>, d: Direction)
    requires Gather(env, file, m.server, emails).1.Some? && e in Gather(env, file, m.server, emails).1.value
    requires file(e) in Names(file, emails)
    ensures
      var c, g, r := CounterOf(file(e), d), Gather(env, file, m.server, emails), RowOf(m, file(e), key, d);
      var at := m.server.clock + R.Place(Names(file, emails), c);
      && Step(m, env, file, emails, e, key, d)
           == (if r.last.Some? then CounterDelta(r.last.value, Pick(g.1.value[e], d)) else 0)
      && Since(env, file, m.seen, emails, c, m.server.clock, g.0.clock)
           == (if r.seen then R.Arrived(env, c, m.server.clock, g.0.clock) else R.Arrived(env, c, at + 1, g.0.clock))
      && HitTarget(file, env, m, emails, posted, e, key, d)
           == PassAndSettle(r, env, c, m.server.clock, at, g.0.clock, posted)
  {
    hide Gather, Names, R.Place, PassAndSettle, R.Arrived, At, Pick, CounterDelta;
  }

  lemma HitRow(lower: string -> string, file: string -> string, addresses: iset<string>, env: R.Remote, m: Meter,
               emails: seq<string>, order: seq<string>, posted: bool, e: string, d: Direction)
    requires Apart(lower, file, addresses) && (forall f | f in emails :: f in addresses)
    requires R.Distinct(emails) && IsOrderOf(order, Addresses(emails)) && e in emails
    requires Gather(env, file, m.server, emails).1.Some? && file(e) in Names(file, emails)
    ensures RowOf(PollMeter(lower, file, env, m, emails, order, posted), file(e), Some(lower(e)), d)
         == HitTarget(file, env, m, emails, posted, e, Some(lower(e)), d)
  {
    hide *;
    ApartAlone(lower, file, addresses, emails, e);
    HitTargetIs(file, env, m, emails, posted, e, Some(lower(e)), d);
    PolledCarried(lower, file, env, m, emails, order, posted, file(e), Some(lower(e)), d);
    PolledReported(lower, file, env, m, emails, order, posted, file(e), Some(lower(e)), d);
    HitSample(lower, file, addresses, env, m, emails, order, e, d);
  }

  lemma ApartAlone(lower: string -> string, file: string -> string, addresses: iset<string>, emails: seq<string>,
                   e: string)
    requires Apart(lower, file, addresses) && (forall f | f in emails :: f in addresses) && e in emails
    ensures Alone(file, emails, e)
  {
  }

  lemma HitAwaited(env: R.Remote, file: string -> string, s: R.Server, emails: seq<string>, e: string, d: Direction)
    requires R.Distinct(emails) && e in emails && Alone(file, emails, e) && Gather(env, file, s, emails).1.Some?
    requires file(e) in Names(file, emails)
    ensures
      var c := CounterOf(file(e), d);
      && c.email == file(e) && e in Gather(env, file, s, emails).1.value
      && Pick(Gather(env, file, s, emails).1.value[e], d)
           == Value(env, c, R.Count(s.counters, c), s.clock, s.clock + R.Place(Names(file, emails), c) + 1)
  {
    hide *;
    GatherReads(env, file, s, emails, e, d);
    ReadsMeans(env, file, s, emails, e, d);
  }

  lemma ReadsMeans(env: R.Remote, file: string -> string, s: R.Server, emails: seq<string>, e: string, d: Direction)
    requires ReadsValue(env, file, s, emails, e, d)
    ensures
      var c := CounterOf(file(e), d);
      && c.email == file(e) && file(e) in Names(file, emails)
      && Gather(env, file, s, emails).1.Some? && e in Gather(env, file, s, emails).1.value
      && Pick(Gather(env, file, s, emails).1.value[e], d)
           == Value(env, c, R.Count(s.counters, c), s.clock, s.clock + R.Place(Names(file, emails), c) + 1)
  {
    hide Gather, Value, Names, R.Place, Pick;
  }

  lemma HitSnapshot(snapshot: map<string, Usage>, next: map<string, Usage>, k: string, now: Usage, d: Direction)
    requires k in next && next[k] == now
    ensures LastOf(next, Some(k), d) == Some(Pick(now, d))
    ensures
      var last := LastOf(snapshot, Some(k), d);
      Pick(SampleDelta(snapshot, k, now), d) == if last.Some? then CounterDelta(last.value, Pick(now, d)) else 0
  {
  }

  lemma NamesLength(file: string -> string, emails: seq<string>)
    ensures |Names(file, emails)| == |emails|
  {
  }

  // ---------- every event, row by row ----------

  lemma PollRow(lower: string -> string, file: string -> string, addresses: iset<string>, env: R.Remote, m: Meter,
                emails: seq<string>, order: seq<string>, posted: bool, name: string, key: Option<string>, d: Direction)
    requires Apart(lower, file, addresses) && (forall e | e in emails :: e in addresses)
    requires R.Distinct(emails) && IsOrderOf(order, Addresses(emails)) && emails != []
    requires Tied(lower, file, addresses, name, key)
    ensures RowOf(PollMeter(lower, file, env, m, emails, order, posted), name, key, d)
         == NextRow(file, env, m, RowOf(m, name, key, d), Poll(emails, order, posted), name, d)
  {
    hide *;
    var c, g := CounterOf(name, d), Gather(env, file, m.server, emails);
    PollCases(file, env, m, RowOf(m, name, key, d), emails, order, posted, name, d);
    TurnIs(file, emails, c, m.server.clock);
    AfterPollIs(RowOf(m, name, key, d), env, c, m.server.clock, g.0.clock, g.1.Some?,
                Turn(file, emails, c, m.server.clock), posted);
    if Gather(env, file, m.server, emails).1.None? {
      FailedRow(lower, file, env, m, emails, order, posted, name, key, d);
    } else if name in Names(file, emails) {
      NamesAre(file, emails, name);
      var e :| e in emails && file(e) == name;
      TiedAt(lower, file, addresses, name, key, e);
      HitRow(lower, file, addresses, env, m, emails, order, posted, e, d);
      HitTargetIsSettle(file, env, m, emails, posted, e, key, d);
    } else {
      MissRow(lower, file, addresses, env, m, emails, order, posted, name, key, d);
    }
  }

  lemma TiedAt(lower: string -> string, file: string -> string, addresses: iset<string>, name: string,
               key: Option<string>, e: string)
    requires Tied(lower, file, addresses, name, key) && e in addresses
    ensures file(e) == name <==> key == Some(lower(e))
  {
  }

  lemma HitTargetIsSettle(file: string -> string, env: R.Remote, m: Meter, emails: seq<string>, posted: bool, e: string,
                          key: Option<string>, d: Direction)
    requires file(e) in Names(file, emails)
    ensures
      var c, from := CounterOf(file(e), d), m.server.clock;
      HitTarget(file, env, m, emails, posted, e, key, d)
        == PassAndSettle(RowOf(m, file(e), key, d), env, c, from, from + R.Place(Names(file, emails), c),
                         Gather(env, file, m.server, emails).0.clock, posted)
  {
    hide Gather, Names, R.Place, PassAndSettle, RowOf, CounterOf;
  }

  lemma PollCases(file: string -> string, env: R.Remote, m: Meter, r: Row, emails: seq<string>, order: seq<string>,
                  posted: bool, name: string, d: Direction)
    requires emails != []
    ensures CounterOf(name, d).email == name
    ensures
      var c, g, from := CounterOf(name, d), Gather(env, file, m.server, emails), m.server.clock;
      NextRow(file, env, m, r, Poll(emails, order, posted), name, d)
        == AfterPoll(r, env, c, from, g.0.clock, g.1.Some?, Turn(file, emails, c, from), posted)
  {
    hide Gather, Turn, AfterPoll;
  }

  lemma TurnIs(file: string -> string, emails: seq<string>, c: R.Counter, from: nat)
    ensures Turn(file, emails, c, from)
         == if c.email in Names(file, emails) then Some(from + R.Place(Names(file, emails), c)) else None
  {
  }

  lemma AfterPollIs(r: Row, env: R.Remote, c: R.Counter, from: nat, until: nat, answered: bool, turn: Option<nat>,
                    posted: bool)
    ensures AfterPoll(r, env, c, from, until, answered, turn, posted) ==
      if !answered then Pass(r, env, c, from, until)
      else if turn.Some? then PassAndSettle(r, env, c, from, turn.value, until, posted)
      else Pass(r, env, c, from, until).(last := None)
  {
  }

  lemma TrafficRow(lower: string -> string, file: string -> string, env: R.Remote, m: Meter, bytes: R.Tally,
                   name: string, key: Option<string>, d: Direction)
    ensures RowOf(NextMeter(lower, file, env, m, Traffic(bytes)), name, key, d)
         == NextRow(file, env, m, RowOf(m, name, key, d), Traffic(bytes), name, d)
  {
    R.TotalCount(m.server.counters, bytes, CounterOf(name, d));
    hide R.Total, R.Count, LastOf, At, Pick;
  }

  lemma CounterResetRow(lower: string -> string, file: string -> string, env: R.Remote, m: Meter, b: R.Counter,
                        name: string, key: Option<string>, d: Direction)
    ensures RowOf(NextMeter(lower, file, env, m, CounterReset(b)), name, key, d)
         == NextRow(file, env, m, RowOf(m, name, key, d), CounterReset(b), name, d)
  {
    var c := CounterOf(name, d);
    assert R.Count(m.server.counters - {b}, c) == if b == c then 0 else R.Count(m.server.counters, c);
    hide LastOf, At, Pick;
  }

  /** Every event acts on every counter and direction separately, in spite of the shared maps. */
  lemma NextMeterByRow(lower: string -> string, file: string -> string, addresses: iset<string>, env: R.Remote,
                       m: Meter, event: Event, name: string, key: Option<string>, d: Direction)
    requires LegalEvent(event) && (event.Poll? ==> forall e | e in event.emails :: e in addresses)
    requires Apart(lower, file, addresses) && Tied(lower, file, addresses, name, key)
    ensures RowOf(NextMeter(lower, file, env, m, event), name, key, d)
         == NextRow(file, env, m, RowOf(m, name, key, d), event, name, d)
  {
    hide PollMeter, Apart, Tied, Pass, PassAndSettle, Gather;
    match event
    case Traffic(bytes) => TrafficRow(lower, file, env, m, bytes, name, key, d);
    case CounterReset(b) => CounterResetRow(lower, file, env, m, b, name, key, d);
    case CoreReset =>
    case Poll(emails, order, posted) =>
      if emails != [] {
        PollRow(lower, file, addresses, env, m, emails, order, posted, name, key, d);
      }
  }

  // ---------- no over-reporting ----------

  /** What is reported plus what is pending was carried; nothing is delivered that was not reported. */
  ghost predicate Sound(r: Row) {
    && 0 <= r.delivered <= r.reported
    && (r.last.Some? ==> r.last.value >= 0 && r.seen)
    && (!r.seen ==> r.carried == 0)
    && r.reported + Pending(r) <= r.carried
  }

  lemma {:induction false} PassSound(r: Row, env: R.Remote, c: R.Counter, from: nat, until: nat)
    requires Sound(r)
    ensures Sound(Pass(r, env, c, from, until))
    decreases until - from
  {
    if from < until {
      TickSound(r, env, c, from);
      hide Tick, Sound;
      PassSound(Tick(r, env, c, from), env, c, from + 1, until);
    }
  }

  lemma TickSound(r: Row, env: R.Remote, c: R.Counter, i: nat)
    requires Sound(r)
    ensures Sound(Tick(r, env, c, i))
  {
  }

  lemma SettleSound(r: Row, posted: bool)
    requires Sound(r)
    ensures Sound(Settle(r, posted))
  {
  }

  lemma RowStaysSound(file: string -> string, env: R.Remote, m: Meter, r: Row, event: Event, name: string, d: Direction)
    requires Sound(r)
    ensures Sound(NextRow(file, env, m, r, event, name, d))
  {
    hide Gather, Turn, AfterPoll, Sound;
    match event
    case Traffic(bytes) => CarrySound(r, R.Count(bytes, CounterOf(name, d)));
    case CounterReset(_) => ZeroSound(r);
    case CoreReset => ZeroSound(r);
    case Poll(emails, _, posted) =>
      AfterPollSound(r, env, CounterOf(name, d), m.server.clock, Gather(env, file, m.server, emails).0.clock,
                     Gather(env, file, m.server, emails).1.Some?,
                     Turn(file, emails, CounterOf(name, d), m.server.clock), posted);
  }

  lemma CarrySound(r: Row, bytes: nat)
    requires Sound(r)
    ensures Sound(Carry(r, bytes))
  {
  }

  lemma ZeroSound(r: Row)
    requires Sound(r)
    ensures Sound(r.(counter := 0))
  {
  }

  lemma AfterPollSound(r: Row, env: R.Remote, c: R.Counter, from: nat, until: nat, answered: bool, turn: Option<nat>,
                       posted: bool)
    requires Sound(r)
    ensures Sound(AfterPoll(r, env, c, from, until, answered, turn, posted))
  {
    hide Sound, Pass, PassAndSettle;
    PassSound(r, env, c, from, until);
    Forgotten(Pass(r, env, c, from, until));
    if turn.Some? {
      SettledSound(r, env, c, from, turn.value, until, posted);
    }
  }

  lemma Forgotten(r: Row)
    requires Sound(r)
    ensures Sound(r.(last := None))
  {
  }

  lemma SettledSound(r: Row, env: R.Remote, c: R.Counter, from: nat, at: nat, until: nat, posted: bool)
    requires Sound(r)
    ensures Sound(PassAndSettle(r, env, c, from, at, until, posted))
  {
    hide Pass, Settle, Sound;
    PassSound(r, env, c, from, at + 1);
    SettleSound(Pass(r, env, c, from, at + 1), posted);
    PassSound(Settle(Pass(r, env, c, from, at + 1), posted), env, c, at + 1, until);
  }

  lemma {:induction false} RunSound(lower: string -> string, file: string -> string, addresses: iset<string>,
                                    env: R.Remote, m: Meter, events: seq<Event>, name: string, key: Option<string>,
                                    d: Direction)
    requires Legal(events) && Over(addresses, events) && Apart(lower, file, addresses)
    requires Tied(lower, file, addresses, name, key) && Sound(RowOf(m, name, key, d))
    ensures Sound(RowOf(MeterAfter(lower, file, env, m, events), name, key, d))
    decreases events
  {
    if events != [] {
      assert Over(addresses, events[1..]) && Legal(events[1..]);
      hide RowOf, NextRow, Sound, Tied, Apart, NextMeter;
      NextMeterByRow(lower, file, addresses, env, m, events[0], name, key, d);
      RowStaysSound(file, env, m, RowOf(m, name, key, d), events[0], name, d);
      RunSound(lower, file, addresses, env, NextMeter(lower, file, env, m, events[0]), events[1..], name, key, d);
    }
  }

  function Nothing(c: R.Counter): nat {
    0
  }

  /** Any counters, nothing sampled yet. */
  function FreshMeter(s: R.Server): Meter {
    Meter(s, map[], {}, Nothing, map[], map[])
  }

  /** The panel never receives more bytes for a counter than it carried since its first sample. */
  ghost predicate Honest(m: Meter, name: string, d: Direction) {
    Pick(At(m.delivered, name), d) <= Pick(At(m.reported, name), d) <= m.carried(CounterOf(name, d))
  }

  ghost predicate AllHonest(m: Meter) {
    forall name, d :: Honest(m, name, d)
  }

  /** No over-reporting: whatever traffic, resets, restarts, failing and successful polls, departures, returns and
      lost posts make up a run, and whatever arrives between the reads of a poll, as long as no two of the
      addresses polled share a snapshot or a counter. */
  lemma NoOverReporting(lower: string -> string, file: string -> string, addresses: iset<string>, env: R.Remote,
                        s: R.Server, events: seq<Event>)
    requires Apart(lower, file, addresses) && Legal(events) && Over(addresses, events)
    ensures AllHonest(MeterAfter(lower, file, env, FreshMeter(s), events))
  {
    var m := MeterAfter(lower, file, env, FreshMeter(s), events);
    forall name, d ensures Honest(m, name, d) {
      var key := KeyFor(lower, file, addresses, name);
      assert Sound(RowOf(FreshMeter(s), name, key, d));
      hide FreshMeter, Apart, Tied, MeterAfter;
      RunSound(lower, file, addresses, env, FreshMeter(s), events, name, key, d);
      HonestRow(m, name, key, d);
    }
  }

  lemma HonestRow(m: Meter, name: string, key: Option<string>, d: Direction)
    ensures var r := RowOf(m, name, key, d); Honest(m, name, d) <==> r.delivered <= r.reported <= r.carried
  {
  }
}
