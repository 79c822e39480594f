/** The exact conditions under which usage accounting in delta mode is right: who may share what for the panel never
    to be told too much, and what is lost otherwise. */
module MeterLimits {
  import opened Model
  import opened Diff
  import opened Usage
  import opened Meter
  import R = ResetRead

  ghost predicate NeverOverReports(lower: string -> string, file: string -> string, addresses: iset<string>) {
    forall env: R.Remote, s: R.Server, events: seq<Event> | Legal(events) && Over(addresses, events) ::
      AllHonest(MeterAfter(lower, file, env, FreshMeter(s), events))
  }

  function Never(q: R.Counter, c: R.Counter): bool {
    false
  }

  /** A core that answers everything, and to which one byte comes just before each of two queries. */
  function OneByteAt(c: R.Counter, i: nat, j: nat): R.Remote {
    R.Remote(k => R.Query(false, if k == i || k == j then map[c := 1] else map[], R.Answered), Never)
  }

  /** Two addresses that share a snapshot but not a counter: what one counter held at its first sample is
      reported as new because the other has been sampled at zero. */
  function SharedSnapshotRun(e: string, f: string): seq<Event> {
    [Poll([e], [e], true), Poll([f], [f], true)]
  }

  /** Two addresses that share a counter: of the two bytes that come before and between its two reads, the first
      read shows one and the second both. */
  function SharedCounterRun(e: string, f: string): seq<Event> {
    [Poll([e, f], [e, f], true), Poll([e, f], [f, e], true)]
  }

  lemma OneAddress(e: string)
    ensures LegalEvent(Poll([e], [e], true)) && Addresses([e]) == {e}
  {
  }

  lemma TwoAddresses(e: string, f: string)
    requires e != f
    ensures LegalEvent(Poll([e, f], [e, f], true)) && LegalEvent(Poll([e, f], [f, e], true))
    ensures Addresses([e, f]) == {e, f}
  {
  }

  lemma FetchSucceeds(env: R.Remote, s: R.Server, name: string)
    requires R.AllAnswered(env, s.clock, s.clock + 2)
    ensures R.Fetch(env, false, s, name).usage.Some?
  {
  }

  /** The readings of two addresses with one counter: the second is taken two queries after the first. */
  lemma PairReads(env: R.Remote, file: string -> string, s: R.Server, e: string, f: string)
    requires e != f && file(e) == file(f) && R.AllAnswered(env, s.clock, s.clock + 4)
    ensures
      var c, g, v := R.Uplink(file(e)), Gather(env, file, s, [e, f]), R.Count(s.counters, R.Uplink(file(e)));
      && g.1.Some? && e in g.1.value && f in g.1.value && g.1.value.Keys == {e, f}
      && g.0.clock == s.clock + 4
      && g.1.value[e].up == Value(env, c, v, s.clock, s.clock + 1)
      && g.1.value[f].up == Value(env, c, v, s.clock, s.clock + 3)
  {
    hide *;
    PairGather(env, file, s, e, f);
    PairUps(env, file, s, e, f);
  }

  lemma PairGather(env: R.Remote, file: string -> string, s: R.Server, e: string, f: string)
    requires e != f && R.AllAnswered(env, s.clock, s.clock + 4)
    ensures
      var g, one := Gather(env, file, s, [e, f]), R.Fetch(env, false, s, file(e));
      var two := R.Fetch(env, false, one.server, file(f));
      && one.usage.Some? && two.usage.Some? && g.1.Some? && g.0 == two.server && g.1.value.Keys == {e, f}
      && g.1.value[e].up == one.usage.value.up && g.1.value[f].up == two.usage.value.up
  {
    hide *;
    var one := R.Fetch(env, false, s, file(e));
    var two := R.Fetch(env, false, one.server, file(f));
    AnsweredTwice(env, s.clock);
    FetchSucceeds(env, s, file(e));
    FetchReads(env, s, file(e), R.Uplink(""));
    FetchSucceeds(env, one.server, file(f));
    GatherTwo(env, file, s, e, f);
    TwoMaps(e, f, one.usage.value, two.usage.value);
  }

  lemma GatherTwo(env: R.Remote, file: string -> string, s: R.Server, e: string, f: string)
    ensures
      var one := R.Fetch(env, false, s, file(e));
      var two := R.Fetch(env, false, one.server, file(f));
      one.usage.Some? && two.usage.Some? ==>
        Gather(env, file, s, [e, f])
          == (two.server, Some(map[e := Usage(one.usage.value.up, one.usage.value.down)]
                               + map[f := Usage(two.usage.value.up, two.usage.value.down)]))
  {
    assert [e, f][1..] == [f];
    hide R.Fetch, Gather;
    GatherOne(env, file, R.Fetch(env, false, s, file(e)).server, f);
    GatherStep(env, file, s, [e, f]);
  }

  lemma TwoMaps(e: string, f: string, u: R.Bytes, v: R.Bytes)
    requires e != f
    ensures
      var m := map[e := Usage(u.up, u.down)] + map[f := Usage(v.up, v.down)];
      m.Keys == {e, f} && m[e].up == u.up && m[f].up == v.up
  {
  }

  lemma PairUps(env: R.Remote, file: string -> string, s: R.Server, e: string, f: string)
    requires file(e) == file(f)
    ensures
      var c, v, one := R.Uplink(file(e)), R.Count(s.counters, R.Uplink(file(e))), R.Fetch(env, false, s, file(e));
      var two := R.Fetch(env, false, one.server, file(f));
      one.usage.Some? && two.usage.Some? ==>
        && one.usage.value.up == Value(env, c, v, s.clock, s.clock + 1)
        && two.usage.value.up == Value(env, c, v, s.clock, s.clock + 3)
        && two.server.clock == s.clock + 4
  {
    var c, one := R.Uplink(file(e)), R.Fetch(env, false, s, file(e));
    FetchReads(env, s, file(e), c);
    FetchReads(env, one.server, file(f), c);
    hide R.Fetch, Value, R.Count;
    if one.usage.Some? {
      ValueSplit(env, c, R.Count(s.counters, c), s.clock, s.clock + 2, s.clock + 3);
    }
  }

  lemma AnsweredTwice(env: R.Remote, i: nat)
    requires R.AllAnswered(env, i, i + 4)
    ensures R.AllAnswered(env, i, i + 2) && R.AllAnswered(env, i + 2, i + 4)
  {
  }

  lemma GatherOne(env: R.Remote, file: string -> string, s: R.Server, e: string)
    ensures
      var first := R.Fetch(env, false, s, file(e));
      first.usage.Some? ==>
        Gather(env, file, s, [e])
          == (first.server, Some(map[e := Usage(first.usage.value.up, first.usage.value.down)]))
  {
    hide R.Fetch;
    var first, rest: seq<string> := R.Fetch(env, false, s, file(e)), [];
    assert [e][1..] == rest;
    assert Gather(env, file, first.server, rest) == (first.server, Some(map[]));
    GatherStep(env, file, s, [e]);
    if first.usage.Some? {
      var one := map[e := Usage(first.usage.value.up, first.usage.value.down)];
      assert one + map[] == one;
    }
    hide Gather;
  }

  function Kept(m: map<string, Usage>, keys: set<string>): map<string, Usage> {
    map k | k in m && k in keys :: m[k]
  }

  /** Two samples in a given order. */
  lemma WalkPair(lower: string -> string, now: map<string, Usage>, x: string, y: string, snapshot: map<string, Usage>)
    requires x != y && now.Keys == {x, y}
    ensures
      var next1 := snapshot[lower(x) := now[x]];
      var (next, deltas) := NormalizeDeltas(lower, snapshot, now, [x, y]);
      && next == Kept(next1[lower(y) := now[y]], {lower(x), lower(y)})
      && deltas == map[x := SampleDelta(snapshot, lower(x), now[x]), y := SampleDelta(next1, lower(y), now[y])]
  {
    var next1, d1 := snapshot[lower(x) := now[x]], map[x := SampleDelta(snapshot, lower(x), now[x])];
    assert [x, y][1..] == [y] && [y][1..] == [];
    assert Walk(lower, now, [y], next1, d1)
        == (next1[lower(y) := now[y]], d1[y := SampleDelta(next1, lower(y), now[y])]);
    assert map[][x := SampleDelta(snapshot, lower(x), now[x])] == d1;
    assert Walk(lower, now, [x, y], snapshot, map[]) == Walk(lower, now, [y], next1, d1);
    assert x in now.Keys && |now| == |now.Keys|;
    assert Present(lower, now.Keys) == {lower(x), lower(y)};
  }

  /** The difference from the last upload sample of a snapshot entry. */
  function Rise(last: Option<int>, now: int): int {
    if last.Some? then CounterDelta(last.value, now) else 0
  }

  lemma PairDeltas(lower: string -> string, now: map<string, Usage>, x: string, y: string, snapshot: map<string, Usage>)
    requires x != y && now.Keys == {x, y}
    ensures
      var (next, deltas) := NormalizeDeltas(lower, snapshot, now, [x, y]);
      var before := if lower(x) == lower(y) then Some(now[x].up) else LastOf(snapshot, Some(lower(y)), Up);
      && deltas.Keys == {x, y}
      && deltas[x].up == Rise(LastOf(snapshot, Some(lower(x)), Up), now[x].up)
      && deltas[y].up == Rise(before, now[y].up)
      && LastOf(next, Some(lower(y)), Up) == Some(now[y].up)
      && LastOf(next, Some(lower(x)), Up) == Some(if lower(x) == lower(y) then now[y].up else now[x].up)
  {
    WalkPair(lower, now, x, y, snapshot);
    hide NormalizeDeltas;
  }

  lemma SharePair(file: string -> string, deltas: map<string, Usage>, x: string, y: string)
    requires x in deltas && y in deltas && file(x) == file(y)
    ensures forall e | e in [x, y] :: e in deltas
    ensures Share(file, deltas, [x, y], file(x)) == Sum(deltas[x], deltas[y])
  {
    ShareCons(file, deltas, [x, y], file(x));
    assert [x, y][1..] == [y] && [y][1..] == [];
    ShareCons(file, deltas, [y], file(x));
    SumZero(deltas[y]);
  }

  /** What a poll of two addresses with one counter does to that counter's upload row: counter and carried. */
  lemma PairCarried(lower: string -> string, file: string -> string, env: R.Remote, m: Meter, e: string, f: string,
                    emails: seq<string>, order: seq<string>, key: Option<string>, last: int, more: int)
    requires e != f && file(e) == file(f) && R.AllAnswered(env, m.server.clock, m.server.clock + 4)
    requires emails == [e, f] && IsOrderOf(order, Addresses(emails)) && file(e) in Names(file, emails)
    requires CounterOf(file(e), Up) == R.Uplink(file(e))
    requires last == Value(env, R.Uplink(file(e)), R.Count(m.server.counters, R.Uplink(file(e))), m.server.clock,
                           m.server.clock + 4)
    requires more == Since(env, file, m.seen, emails, R.Uplink(file(e)), m.server.clock, m.server.clock + 4)
    ensures
      var m' := PollMeter(lower, file, env, m, emails, order, true);
      var r, r' := RowOf(m, file(e), key, Up), RowOf(m', file(e), key, Up);
      r'.seen && r'.counter == last && r'.carried == r.carried + more
  {
    hide *;
    PairReads(env, file, m.server, e, f);
    PolledCarried(lower, file, env, m, emails, order, true, file(e), key, Up);
    GatherPasses(env, file, m.server, emails, R.Uplink(file(e)));
  }

  lemma PairClock(lower: string -> string, file: string -> string, env: R.Remote, m: Meter, e: string, f: string,
                  emails: seq<string>, order: seq<string>)
    requires e != f && file(e) == file(f) && R.AllAnswered(env, m.server.clock, m.server.clock + 4)
    requires emails == [e, f] && IsOrderOf(order, Addresses(emails))
    ensures PollMeter(lower, file, env, m, emails, order, true).server.clock == m.server.clock + 4
  {
    hide *;
    PairReads(env, file, m.server, e, f);
    PollBooks(lower, file, env, m, emails, order, true);
  }

  /** The same: snapshot and reported, in either order of the samples. */
  lemma PairForth(lower: string -> string, file: string -> string, env: R.Remote, m: Meter, e: string, f: string,
                  emails: seq<string>, order: seq<string>, one: int, two: int)
    requires e != f && file(e) == file(f) && R.AllAnswered(env, m.server.clock, m.server.clock + 4)
    requires emails == [e, f] && order == [e, f] && IsOrderOf(order, Addresses(emails))
    requires
      var v, t := R.Count(m.server.counters, R.Uplink(file(e))), m.server.clock;
      one == Value(env, R.Uplink(file(e)), v, t, t + 1) && two == Value(env, R.Uplink(file(e)), v, t, t + 3)
    ensures
      var m' := PollMeter(lower, file, env, m, emails, order, true);
      var r, r' := RowOf(m, file(e), Some(lower(e)), Up), RowOf(m', file(e), Some(lower(e)), Up);
      var before := if lower(e) == lower(f) then Some(one) else LastOf(m.snapshot, Some(lower(f)), Up);
      && r'.reported == r.reported + Rise(r.last, one) + Rise(before, two)
      && r'.last == Some(if lower(e) == lower(f) then two else one)
      && LastOf(m'.snapshot, Some(lower(f)), Up) == Some(two)
  {
    hide *;
    PairReads(env, file, m.server, e, f);
    PairBooks(lower, file, env, m, e, f, e, f);
  }

  lemma PairBack(lower: string -> string, file: string -> string, env: R.Remote, m: Meter, e: string, f: string,
                  emails: seq<string>, order: seq<string>, one: int, two: int)
    requires e != f && file(e) == file(f) && R.AllAnswered(env, m.server.clock, m.server.clock + 4)
    requires emails == [e, f] && order == [f, e] && IsOrderOf(order, Addresses(emails))
    requires
      var v, t := R.Count(m.server.counters, R.Uplink(file(e))), m.server.clock;
      one == Value(env, R.Uplink(file(e)), v, t, t + 1) && two == Value(env, R.Uplink(file(e)), v, t, t + 3)
    ensures
      var m' := PollMeter(lower, file, env, m, emails, order, true);
      var r, r' := RowOf(m, file(e), Some(lower(f)), Up), RowOf(m', file(e), Some(lower(f)), Up);
      var before := if lower(f) == lower(e) then Some(two) else LastOf(m.snapshot, Some(lower(e)), Up);
      && r'.reported == r.reported + Rise(r.last, two) + Rise(before, one)
      && r'.last == Some(if lower(f) == lower(e) then one else two)
      && LastOf(m'.snapshot, Some(lower(e)), Up) == Some(one)
  {
    hide *;
    PairReads(env, file, m.server, e, f);
    PairBooks(lower, file, env, m, e, f, f, e);
  }

  lemma PairPlace(file: string -> string, e: string, f: string)
    ensures file(e) in Names(file, [e, f]) && R.Place(Names(file, [e, f]), R.Uplink(file(e))) == 0
  {
    assert Names(file, [e, f])[0] == file(e);
  }

  lemma PairSince(env: R.Remote, file: string -> string, seen: set<R.Counter>, emails: seq<string>, c: R.Counter,
                  t: nat)
    requires c.email in Names(file, emails) && R.Place(Names(file, emails), c) == 0
    ensures Since(env, file, seen, emails, c, t, t + 4)
         == if c in seen then R.Arrived(env, c, t, t + 4) else R.Arrived(env, c, t + 1, t + 4)
  {
    hide R.Place, R.Arrived, Names;
  }

  lemma PairBooks(lower: string -> string, file: string -> string, env: R.Remote, m: Meter, e: string, f: string,
                  x: string, y: string)
    requires e != f && file(e) == file(f) && R.AllAnswered(env, m.server.clock, m.server.clock + 4)
    requires (x == e && y == f) || (x == f && y == e)
    ensures IsOrderOf([x, y], Addresses([e, f]))
    ensures
      var name, g := file(e), Gather(env, file, m.server, [e, f]).1;
      var m' := PollMeter(lower, file, env, m, [e, f], [x, y], true);
      var r, r' := RowOf(m, name, Some(lower(x)), Up), RowOf(m', name, Some(lower(x)), Up);
      && g.Some? && x in g.value && y in g.value
      && var nowX, nowY := g.value[x].up, g.value[y].up;
         var before := if lower(x) == lower(y) then Some(nowX) else LastOf(m.snapshot, Some(lower(y)), Up);
         && r'.reported == r.reported + Rise(r.last, nowX) + Rise(before, nowY)
         && r'.last == Some(if lower(x) == lower(y) then nowY else nowX)
         && LastOf(m'.snapshot, Some(lower(y)), Up) == Some(nowY)
  {
    var name, order, s := file(e), [x, y], m.server;
    var m' := PollMeter(lower, file, env, m, [e, f], order, true);
    TwoAddresses(e, f);
    PairReads(env, file, s, e, f);
    var now := Gather(env, file, s, [e, f]).1.value;
    MeasureIs(lower, file, env, s, m.snapshot, [e, f], order);
    PairDeltas(lower, now, x, y, m.snapshot);
    var deltas := NormalizeDeltas(lower, m.snapshot, now, order).1;
    SharePair(file, deltas, x, y);
    RowIs(m, name, Some(lower(x)), Up);
    RowIs(m', name, Some(lower(y)), Up);
    PickSum(deltas[x], deltas[y], Up);
    assert Pick(deltas[x], Up) == deltas[x].up && Pick(deltas[y], Up) == deltas[y].up;
    hide *;
    PolledReported(lower, file, env, m, [e, f], order, true, name, Some(lower(x)), Up);
    PolledReported(lower, file, env, m, [e, f], order, true, name, Some(lower(y)), Up);
  }

  /** The values and arrivals of the run below: one byte before query 4 and one before query 6. */
  lemma OneByteValues(c: R.Counter)
    ensures
      var env := OneByteAt(c, 4, 6);
      && Value(env, c, 0, 0, 1) == 0 && Value(env, c, 0, 0, 3) == 0 && Value(env, c, 0, 0, 4) == 0
      && Value(env, c, 0, 4, 5) == 1 && Value(env, c, 0, 4, 7) == 2
  {
    var env := OneByteAt(c, 4, 6);
    FreshOneByte(c);
    hide Value, R.Fresh;
    ValueOne(env, c, 0, 0);
    ValueOne(env, c, 0, 1);
    ValueOne(env, c, 0, 2);
    ValueOne(env, c, 0, 3);
    ValueSplit(env, c, 0, 0, 1, 2);
    ValueSplit(env, c, 0, 0, 2, 3);
    ValueSplit(env, c, 0, 0, 3, 4);
    ValueOne(env, c, 0, 4);
    ValueOne(env, c, 1, 5);
    ValueOne(env, c, 1, 6);
    ValueSplit(env, c, 0, 4, 5, 6);
    ValueSplit(env, c, 0, 4, 6, 7);
  }

  lemma FreshOneByte(c: R.Counter)
    ensures
      var env := OneByteAt(c, 4, 6);
      forall v: nat, i: nat :: R.Fresh(env, c, v, i) == v + if i == 4 || i == 6 then 1 else 0
  {
  }

  lemma OneByteArrivals(c: R.Counter)
    ensures
      var env := OneByteAt(c, 4, 6);
      R.Arrived(env, c, 1, 4) == 0 && R.Arrived(env, c, 4, 8) == 2 && forall i, j :: R.AllAnswered(env, i, j)
  {
    var env := OneByteAt(c, 4, 6);
    assert R.Arrived(env, c, 4, 4) == 0 && R.Arrived(env, c, 3, 4) == 0 && R.Arrived(env, c, 2, 4) == 0;
    assert R.Arrived(env, c, 8, 8) == 0 && R.Arrived(env, c, 7, 8) == 0 && R.Arrived(env, c, 6, 8) == 1;
    assert R.Arrived(env, c, 5, 8) == 1;
  }

  /** The first poll samples both addresses at zero. */
  lemma FirstPair(lower: string -> string, file: string -> string, e: string, f: string)
    requires e != f && file(e) == file(f)
    ensures IsOrderOf([e, f], Addresses([e, f]))
    ensures
      var env, name := OneByteAt(R.Uplink(file(e)), 4, 6), file(e);
      var m := PollMeter(lower, file, env, FreshMeter(R.Server(map[], 0)), [e, f], [e, f], true);
      && m.server.clock == 4
      && RowOf(m, name, Some(lower(e)), Up) == Row(0, Some(0), true, 0, 0, RowOf(m, name, Some(lower(e)), Up).delivered)
      && RowOf(m, name, Some(lower(f)), Up) == Row(0, Some(0), true, 0, 0, RowOf(m, name, Some(lower(f)), Up).delivered)
  {
    var c, name, m0 := R.Uplink(file(e)), file(e), FreshMeter(R.Server(map[], 0));
    var env := OneByteAt(c, 4, 6);
    TwoAddresses(e, f);
    PairPlace(file, e, f);
    OneByteValues(c);
    OneByteArrivals(c);
    FreshRow(name, Some(lower(e)));
    FreshRow(name, Some(lower(f)));
    PairSince(env, file, {}, [e, f], c, 0);
    FirstPairRows(lower, file, env, m0, e, f, [e, f], c);
  }

  lemma FreshRow(name: string, key: Option<string>)
    ensures RowOf(FreshMeter(R.Server(map[], 0)), name, key, Up) == Row(0, None, false, 0, 0, 0)
  {
  }

  lemma FirstPairRows(lower: string -> string, file: string -> string, env: R.Remote, m: Meter, e: string, f: string,
                      emails: seq<string>, c: R.Counter)
    requires e != f && file(e) == file(f) && R.AllAnswered(env, 0, 4)
    requires c == R.Uplink(file(e)) == CounterOf(file(e), Up)
    requires emails == [e, f] && IsOrderOf(emails, Addresses(emails)) && file(e) in Names(file, emails)
    requires m.server == R.Server(map[], 0) && R.Count(m.server.counters, c) == 0 && m.seen == {}
    requires Value(env, c, 0, 0, 1) == 0 && Value(env, c, 0, 0, 3) == 0 && Value(env, c, 0, 0, 4) == 0
    requires Since(env, file, {}, emails, c, 0, 4) == 0
    requires RowOf(m, file(e), Some(lower(e)), Up) == Row(0, None, false, 0, 0, 0)
    requires RowOf(m, file(e), Some(lower(f)), Up) == Row(0, None, false, 0, 0, 0)
    requires LastOf(m.snapshot, Some(lower(f)), Up) == None
    ensures
      var m' := PollMeter(lower, file, env, m, emails, emails, true);
      var r, r' := RowOf(m', file(e), Some(lower(e)), Up), RowOf(m', file(e), Some(lower(f)), Up);
      && m'.server.clock == 4
      && r == Row(0, Some(0), true, 0, 0, r.delivered) && r' == Row(0, Some(0), true, 0, 0, r'.delivered)
  {
    hide *;
    PairClock(lower, file, env, m, e, f, emails, emails);
    PairCarried(lower, file, env, m, e, f, emails, emails, Some(lower(e)), 0, 0);
    PairCarried(lower, file, env, m, e, f, emails, emails, Some(lower(f)), 0, 0);
    PairForth(lower, file, env, m, e, f, emails, emails, 0, 0);
    RiseNone(0);
    RiseZero(if lower(e) == lower(f) then Some(0) else None);
    OtherKey(PollMeter(lower, file, env, m, emails, emails, true), file(e), Some(lower(e)), Some(lower(f)), Up);
  }

  lemma RiseNone(now: int)
    ensures Rise(None, now) == 0
  {
  }

  lemma RiseZero(last: Option<int>)
    requires last == None || last == Some(0)
    ensures Rise(last, 0) == 0
  {
  }

  /** Two keys give the same row but for the sample remembered under them. */
  lemma OtherKey(m: Meter, name: string, key: Option<string>, key': Option<string>, d: Direction)
    ensures RowOf(m, name, key', d) == RowOf(m, name, key, d).(last := LastOf(m.snapshot, key', d))
  {
  }

  /** Two polls, the second of a core that has been up since: three bytes reported for two carried. */
  lemma SecondPair(lower: string -> string, file: string -> string, env: R.Remote, m: Meter, e: string, f: string,
                   emails: seq<string>, order: seq<string>, c: R.Counter)
    requires e != f && file(e) == file(f) && R.AllAnswered(env, 4, 8)
    requires c == R.Uplink(file(e)) == CounterOf(file(e), Up)
    requires emails == [e, f] && order == [f, e] && IsOrderOf(order, Addresses(emails))
    requires file(e) in Names(file, emails)
    requires m.server.clock == 4 && R.Count(m.server.counters, c) == 0
    requires Value(env, c, 0, 4, 5) == 1 && Value(env, c, 0, 4, 7) == 2
    requires Since(env, file, m.seen, emails, c, 4, 8) == 2
    requires var r := RowOf(m, file(e), Some(lower(f)), Up); r.carried == r.reported == 0 && r.last == Some(0)
    requires LastOf(m.snapshot, Some(lower(e)), Up) == Some(0)
    ensures !Honest(PollMeter(lower, file, env, m, emails, order, true), file(e), Up)
  {
    hide *;
    PairBack(lower, file, env, m, e, f, emails, order, 1, 2);
    PairCarried(lower, file, env, m, e, f, emails, order, Some(lower(f)), Value(env, c, 0, 4, 8), 2);
    RiseOne();
    HonestRow(PollMeter(lower, file, env, m, emails, order, true), file(e), Some(lower(f)), Up);
  }

  lemma RiseOne()
    ensures Rise(Some(0), 2) == 2 && Rise(Some(0), 1) == Rise(Some(2), 1) == 1
  {
  }

  /** A run one event at a time. */
  lemma AfterOne(lower: string -> string, file: string -> string, env: R.Remote, m: Meter, first: Event,
                 rest: seq<Event>)
    requires LegalEvent(first) && Legal(rest)
    ensures Legal([first] + rest)
    ensures MeterAfter(lower, file, env, m, [first] + rest)
         == MeterAfter(lower, file, env, NextMeter(lower, file, env, m, first), rest)
  {
    var events := [first] + rest;
    assert events[0] == first && events[1..] == rest;
    hide NextMeter, LegalEvent;
    assert Legal(events);
  }

  lemma AfterNone(lower: string -> string, file: string -> string, env: R.Remote, m: Meter)
    ensures Legal([]) && MeterAfter(lower, file, env, m, []) == m
  {
  }

  lemma PollIsNext(lower: string -> string, file: string -> string, env: R.Remote, m: Meter, emails: seq<string>,
                   order: seq<string>, posted: bool)
    requires LegalEvent(Poll(emails, order, posted)) && emails != []
    ensures IsOrderOf(order, Addresses(emails))
    ensures NextMeter(lower, file, env, m, Poll(emails, order, posted))
         == PollMeter(lower, file, env, m, emails, order, posted)
  {
    hide PollMeter, Addresses, IsOrderOf;
  }

  lemma TwoPolls(lower: string -> string, file: string -> string, env: R.Remote, m: Meter, e: string, f: string)
    requires e != f
    ensures Legal(SharedCounterRun(e, f))
    ensures IsOrderOf([e, f], Addresses([e, f])) && IsOrderOf([f, e], Addresses([e, f]))
    ensures MeterAfter(lower, file, env, m, SharedCounterRun(e, f))
         == PollMeter(lower, file, env, PollMeter(lower, file, env, m, [e, f], [e, f], true), [e, f], [f, e], true)
  {
    var one, two, none: seq<Event> := Poll([e, f], [e, f], true), Poll([e, f], [f, e], true), [];
    TwoAddresses(e, f);
    assert SharedCounterRun(e, f) == [one] + ([two] + none);
    assert [e, f] != [];
    hide *;
    AfterNone(lower, file, env, m);
    PollIsNext(lower, file, env, m, [e, f], [e, f], true);
    var m1 := PollMeter(lower, file, env, m, [e, f], [e, f], true);
    PollIsNext(lower, file, env, m1, [e, f], [f, e], true);
    AfterNone(lower, file, env, NextMeter(lower, file, env, m1, two));
    AfterOne(lower, file, env, m1, two, none);
    AfterOne(lower, file, env, m, one, [two] + none);
  }

  /** Addresses that share a counter: the panel can be told more than the counter carried, although every poll
      of the run succeeds and nothing is reset. */
  lemma SharedCounter(lower: string -> string, file: string -> string, e: string, f: string)
    requires e != f && file(e) == file(f)
    ensures Legal(SharedCounterRun(e, f))
    ensures
      var env := OneByteAt(R.Uplink(file(e)), 4, 6);
      !Honest(MeterAfter(lower, file, env, FreshMeter(R.Server(map[], 0)), SharedCounterRun(e, f)), file(e), Up)
  {
    var c, emails, s := R.Uplink(file(e)), [e, f], R.Server(map[], 0);
    var env := OneByteAt(c, 4, 6);
    TwoAddresses(e, f);
    var m := PollMeter(lower, file, env, FreshMeter(s), emails, [e, f], true);
    RowIs(m, file(e), Some(lower(e)), Up);
    RowIs(m, file(e), Some(lower(f)), Up);
    assert CounterOf(file(e), Up) == c && c.email == file(e);
    hide *;
    OneByteValues(c);
    OneByteArrivals(c);
    PairPlace(file, e, f);
    FirstPair(lower, file, e, f);
    PairSince(env, file, m.seen, emails, c, 4);
    SecondPair(lower, file, env, m, e, f, emails, [f, e], c);
    TwoPolls(lower, file, env, FreshMeter(s), e, f);
  }

  // ---------- one snapshot, two counters ----------

  lemma SingleGather(env: R.Remote, file: string -> string, s: R.Server, e: string)
    requires R.AllAnswered(env, s.clock, s.clock + 2)
    ensures Gather(env, file, s, [e]).1.Some? && Gather(env, file, s, [e]).0.clock == s.clock + 2
  {
    hide *;
    FetchSucceeds(env, s, file(e));
    FetchReads(env, s, file(e), R.Uplink(""));
    GatherOne(env, file, s, e);
  }

  /** A poll of a single address. */
  lemma SinglePoll(lower: string -> string, file: string -> string, env: R.Remote, m: Meter, e: string,
                   emails: seq<string>, c: R.Counter)
    requires e in emails && c == R.Uplink(file(e)) && Gather(env, file, m.server, emails).1.Some?
    requires Gather(env, file, m.server, emails).0.clock == m.server.clock + 2
    requires R.Distinct(emails) && IsOrderOf(emails, Addresses(emails))
    requires file(e) in Names(file, emails) && CounterOf(file(e), Up) == c && R.Place(Names(file, emails), c) == 0
    requires Apart(lower, file, iset{e}) && forall f | f in emails :: f in iset{e}
    ensures
      var m' := PollMeter(lower, file, env, m, emails, emails, true);
      && m'.server.clock == m.server.clock + 2
      && RowOf(m', file(e), Some(lower(e)), Up)
           == PassAndSettle(RowOf(m, file(e), Some(lower(e)), Up), env, c, m.server.clock, m.server.clock,
                            m.server.clock + 2, true)
  {
    hide *;
    PollBooks(lower, file, env, m, emails, emails, true);
    HitRow(lower, file, iset{e}, env, m, emails, emails, true, e, Up);
    HitTargetIsSettle(file, env, m, emails, true, e, Some(lower(e)), Up);
  }

  lemma SingleFacts(lower: string -> string, file: string -> string, e: string)
    ensures
      var emails, c := [e], R.Uplink(file(e));
      && LegalEvent(Poll(emails, emails, true)) && R.Distinct(emails) && IsOrderOf(emails, Addresses(emails))
      && Names(file, emails) == [file(e)] && CounterOf(file(e), Up) == c && R.Place(Names(file, emails), c) == 0
      && Apart(lower, file, iset{e}) && forall f | f in emails :: f in iset{e}
  {
    OneAddress(e);
    assert [e][1..] == [];
  }

  lemma OtherTied(lower: string -> string, file: string -> string, e: string, name: string)
    requires file(e) != name
    ensures Tied(lower, file, iset{e}, name, None) && name !in Names(file, [e])
  {
    assert [e][1..] == [];
  }

  /** The values along the run: a byte for one counter comes just before query 2. */
  lemma LateByteValues(c: R.Counter, b: R.Counter)
    requires b != c
    ensures
      var env := OneByteAt(c, 2, 2);
      && Value(env, b, 0, 0, 1) == 0 && Value(env, c, 0, 0, 2) == 0 && Value(env, c, 0, 2, 3) == 1
      && R.Arrived(env, c, 3, 4) == 0 && forall i, j :: R.AllAnswered(env, i, j)
  {
    var env := OneByteAt(c, 2, 2);
    assert R.Arrived(env, c, 4, 4) == 0;
    assert R.Fresh(env, b, 0, 0) == 0 && R.Fresh(env, c, 0, 0) == 0 && R.Fresh(env, c, 0, 1) == 0;
    assert R.Fresh(env, c, 0, 2) == 1;
    hide Value, R.Fresh, OneByteAt;
    ValueOne(env, b, 0, 0);
    ValueOne(env, c, 0, 0);
    ValueOne(env, c, 0, 1);
    ValueSplit(env, c, 0, 0, 1, 2);
    ValueOne(env, c, 0, 2);
  }

  /** The other address' row after the first poll: it is not sampled, but its snapshot is the polled one's. */
  lemma BesidePoll(lower: string -> string, file: string -> string, env: R.Remote, m: Meter, e: string, f: string,
                   emails: seq<string>, c: R.Counter)
    requires emails == [e] && lower(e) == lower(f) && file(e) != file(f)
    requires c == CounterOf(file(f), Up) && RowOf(m, file(f), None, Up) == Row(0, None, false, 0, 0, 0)
    requires m.server.clock == 0 && R.AllAnswered(env, 0, 2)
    requires RowOf(m, file(e), Some(lower(e)), Up) == Row(0, None, false, 0, 0, 0)
    requires Value(env, R.Uplink(file(e)), 0, 0, 1) == 0 && Value(env, c, 0, 0, 2) == 0
    ensures IsOrderOf(emails, Addresses(emails))
    ensures
      var m' := PollMeter(lower, file, env, m, emails, emails, true);
      && m'.server.clock == 2
      && RowOf(m', file(f), Some(lower(f)), Up) == Row(0, Some(0), false, 0, 0, 0)
  {
    hide *;
    SingleFacts(lower, file, e);
    OtherTied(lower, file, e, file(f));
    SingleGather(env, file, m.server, e);
    var m' := PollMeter(lower, file, env, m, emails, emails, true);
    SinglePoll(lower, file, env, m, e, emails, R.Uplink(file(e)));
    PassAndSettleIs(RowOf(m, file(e), Some(lower(e)), Up), env, R.Uplink(file(e)), 0, 0, 2, true);
    RowIs(m', file(e), Some(lower(e)), Up);
    MissRow(lower, file, iset{e}, env, m, emails, emails, true, file(f), None, Up);
    PassValue(RowOf(m, file(f), None, Up), env, c, 0, 2);
    OtherKey(m', file(f), None, Some(lower(f)), Up);
  }

  /** Addresses that share a snapshot but not a counter: the panel can be told more than a counter carried. */
  lemma SharedSnapshot(lower: string -> string, file: string -> string, e: string, f: string)
    requires lower(e) == lower(f) && file(e) != file(f)
    ensures Legal(SharedSnapshotRun(e, f))
    ensures
      var env := OneByteAt(R.Uplink(file(f)), 2, 2);
      !Honest(MeterAfter(lower, file, env, FreshMeter(R.Server(map[], 0)), SharedSnapshotRun(e, f)), file(f), Up)
  {
    var c, m0 := R.Uplink(file(f)), FreshMeter(R.Server(map[], 0));
    var env, one, two, none: seq<Event> := OneByteAt(c, 2, 2), Poll([e], [e], true), Poll([f], [f], true), [];
    assert SharedSnapshotRun(e, f) == [one] + ([two] + none) && m0.server.clock == 0;
    FreshRow(file(f), None);
    FreshRow(file(e), Some(lower(e)));
    hide *;
    SingleFacts(lower, file, e);
    SingleFacts(lower, file, f);
    LateByteValues(c, R.Uplink(file(e)));
    BesidePoll(lower, file, env, m0, e, f, [e], c);
    var m1 := PollMeter(lower, file, env, m0, [e], [e], true);
    var m2 := PollMeter(lower, file, env, m1, [f], [f], true);
    SingleGather(env, file, m1.server, f);
    SinglePoll(lower, file, env, m1, f, [f], c);
    PassAndSettleIs(RowOf(m1, file(f), Some(lower(f)), Up), env, c, 2, 2, 4, true);
    OneByteRise();
    HonestRow(m2, file(f), Some(lower(f)), Up);
    PollIsNext(lower, file, env, m0, [e], [e], true);
    PollIsNext(lower, file, env, m1, [f], [f], true);
    AfterNone(lower, file, env, m2);
    AfterOne(lower, file, env, m1, two, none);
    AfterOne(lower, file, env, m0, one, [two] + none);
  }

  lemma OneByteRise()
    ensures CounterDelta(0, 1) == 1
  {
  }

  // ---------- the exact conditions ----------

  /** The panel is never told more than was carried if and only if no two of the addresses ever polled share a
      snapshot or a counter. */
  lemma NeverOverReportsIff(lower: string -> string, file: string -> string, addresses: iset<string>)
    ensures NeverOverReports(lower, file, addresses) <==> Apart(lower, file, addresses)
  {
    hide AllHonest, Legal, MeterAfter, FreshMeter;
    if Apart(lower, file, addresses) {
      forall env: R.Remote, s: R.Server, events: seq<Event> | Legal(events) && Over(addresses, events)
        ensures AllHonest(MeterAfter(lower, file, env, FreshMeter(s), events))
      {
        NoOverReporting(lower, file, addresses, env, s, events);
      }
    } else {
      var e, f :| e in addresses && f in addresses && e != f && (lower(e) == lower(f) || file(e) == file(f));
      SharedBreaks(lower, file, addresses, e, f);
    }
  }

  lemma SharedBreaks(lower: string -> string, file: string -> string, addresses: iset<string>, e: string, f: string)
    requires e in addresses && f in addresses && e != f && (lower(e) == lower(f) || file(e) == file(f))
    ensures !NeverOverReports(lower, file, addresses)
  {
    hide Legal, MeterAfter, FreshMeter, Honest, OneByteAt;
    if file(e) == file(f) {
      SharedCounter(lower, file, e, f);
      assert Over(addresses, SharedCounterRun(e, f));
    } else {
      SharedSnapshot(lower, file, e, f);
      assert Over(addresses, SharedSnapshotRun(e, f));
    }
  }

  /** A core that keeps a counter for every address: no two of them may be the same but for case. */
  lemma OwnCountersIff(lower: string -> string, addresses: iset<string>)
    ensures NeverOverReports(lower, Same, addresses)
       <==> forall e, f | e in addresses && f in addresses && lower(e) == lower(f) :: e == f
  {
    NeverOverReportsIff(lower, Same, addresses);
  }

  // ---------- no under-reporting ----------

  ghost predicate NoRestart(env: R.Remote, from: nat, until: nat) {
    forall i | from <= i < until :: !env.queries(i).restart
  }

  /** Events that neither reset a counter nor leave it out of a successful poll. */
  ghost predicate Undisturbed(file: string -> string, env: R.Remote, m: Meter, event: Event, c: R.Counter) {
    match event
    case Traffic(_) => true
    case CounterReset(b) => b != c
    case CoreReset => false
    case Poll(emails, _, _) =>
      var (s', answer) := Gather(env, file, m.server, emails);
      emails == [] || (NoRestart(env, m.server.clock, s'.clock) && (answer.Some? ==> c.email in Names(file, emails)))
  }

  ghost predicate AllUndisturbed(lower: string -> string, file: string -> string, env: R.Remote, m: Meter,
                                 events: seq<Event>, c: R.Counter)
    requires Legal(events)
    decreases events
  {
    events == []
    || (&& Undisturbed(file, env, m, events[0], c)
        && AllUndisturbed(lower, file, env, NextMeter(lower, file, env, m, events[0]), events[1..], c))
  }

  ghost predicate Complete(r: Row) {
    r.last.Some? && r.seen && 0 <= r.last.value <= r.counter && r.carried == r.reported + Pending(r)
  }

  lemma {:induction false} PassComplete(r: Row, env: R.Remote, c: R.Counter, from: nat, until: nat)
    requires Complete(r) && NoRestart(env, from, until)
    ensures Complete(Pass(r, env, c, from, until))
    decreases until - from
  {
    if from < until {
      assert !env.queries(from).restart;
      PassComplete(Tick(r, env, c, from), env, c, from + 1, until);
    }
  }

  lemma AfterPollComplete(r: Row, env: R.Remote, c: R.Counter, from: nat, until: nat, answered: bool,
                          turn: Option<nat>, posted: bool)
    requires Complete(r) && NoRestart(env, from, until) && (answered ==> turn.Some? && from <= turn.value < until)
    ensures Complete(AfterPoll(r, env, c, from, until, answered, turn, posted))
  {
    if answered {
      PassComplete(r, env, c, from, turn.value + 1);
      PassComplete(Settle(Pass(r, env, c, from, turn.value + 1), posted), env, c, turn.value + 1, until);
    } else {
      PassComplete(r, env, c, from, until);
    }
    hide Pass, NoRestart;
  }

  lemma RowStaysComplete(file: string -> string, env: R.Remote, m: Meter, r: Row, event: Event, name: string,
                         d: Direction)
    requires Complete(r) && Undisturbed(file, env, m, event, CounterOf(name, d))
    ensures Complete(NextRow(file, env, m, r, event, name, d))
  {
    if event.Poll? && event.emails != [] {
      var c, g := CounterOf(name, d), Gather(env, file, m.server, event.emails);
      PollCases(file, env, m, r, event.emails, event.order, event.posted, name, d);
      GatherPasses(env, file, m.server, event.emails, c);
      NamesLength(file, event.emails);
      if g.1.Some? {
        PlaceBound(Names(file, event.emails), c);
      }
      AfterPollComplete(r, env, c, m.server.clock, g.0.clock, g.1.Some?, Turn(file, event.emails, c, m.server.clock),
                        event.posted);
      hide Gather, AfterPoll, NoRestart, Names, R.Place, NextRow, Complete;
    }
  }

  /** While a counter is not reset and every successful poll samples it, nothing goes missing: what was carried is
      what was reported plus what the next sample will add.  Polls may fail. */
  lemma {:induction false} NoUnderReporting(lower: string -> string, file: string -> string, addresses: iset<string>,
                                            env: R.Remote, m: Meter, events: seq<Event>, name: string,
                                            key: Option<string>, d: Direction)
    requires Legal(events) && Over(addresses, events) && Apart(lower, file, addresses)
    requires Tied(lower, file, addresses, name, key)
    requires AllUndisturbed(lower, file, env, m, events, CounterOf(name, d)) && Complete(RowOf(m, name, key, d))
    ensures Complete(RowOf(MeterAfter(lower, file, env, m, events), name, key, d))
    decreases events
  {
    if events != [] {
      assert Over(addresses, events[1..]) && Legal(events[1..]);
      hide RowOf, NextRow, Complete, Tied, Apart, NextMeter, Undisturbed;
      NextMeterByRow(lower, file, addresses, env, m, events[0], name, key, d);
      RowStaysComplete(file, env, m, RowOf(m, name, key, d), events[0], name, d);
      var m1 := NextMeter(lower, file, env, m, events[0]);
      NoUnderReporting(lower, file, addresses, env, m1, events[1..], name, key, d);
    }
  }

  // ---------- posts that fail ----------

  /** What a poll finds for one counter. */
  function Found(lower: string -> string, file: string -> string, env: R.Remote, m: Meter, event: Event, name: string,
                 d: Direction): int
    requires event.Poll? ==> IsOrderOf(event.order, Addresses(event.emails))
  {
    if !event.Poll? || event.emails == [] then 0
    else
      var deltas := Measure(lower, file, env, m.server, m.snapshot, event.emails, event.order).2;
      MeasureKeys(lower, file, env, m.server, m.snapshot, event.emails, event.order);
      if deltas.None? then 0 else Pick(Share(file, deltas.value, event.order, name), d)
  }

  function Unposted(event: Event): bool {
    event.Poll? && !event.posted
  }

  /** What the polls of a run found for a counter and could not post. */
  ghost function LostOver(lower: string -> string, file: string -> string, env: R.Remote, m: Meter, events: seq<Event>,
                          name: string, d: Direction): int
    requires Legal(events)
    decreases events
  {
    if events == [] then 0
    else
      (if Unposted(events[0]) then Found(lower, file, env, m, events[0], name, d) else 0)
      + LostOver(lower, file, env, NextMeter(lower, file, env, m, events[0]), events[1..], name, d)
  }

  /** Every poll that found something for the counter was posted. */
  ghost predicate AllPosted(lower: string -> string, file: string -> string, env: R.Remote, m: Meter,
                            events: seq<Event>, name: string, d: Direction)
    requires Legal(events)
    decreases events
  {
    events == []
    || (&& (Unposted(events[0]) ==> Found(lower, file, env, m, events[0], name, d) == 0)
        && AllPosted(lower, file, env, NextMeter(lower, file, env, m, events[0]), events[1..], name, d))
  }

  /** Reported and not delivered. */
  function Missing(m: Meter, name: string, d: Direction): int {
    Pick(At(m.reported, name), d) - Pick(At(m.delivered, name), d)
  }

  ghost predicate NonNegative(deltas: map<string, Usage>) {
    forall e | e in deltas :: deltas[e].up >= 0 && deltas[e].down >= 0
  }

  lemma {:induction false} WalkNonNegative(lower: string -> string, current: map<string, Usage>, order: seq<string>,
                                           snapshot: map<string, Usage>, deltas: map<string, Usage>)
    requires (forall e | e in order :: e in current) && NonNegative(deltas)
    ensures NonNegative(Walk(lower, current, order, snapshot, deltas).1)
    decreases order
  {
    if order != [] {
      var e, key := order[0], lower(order[0]);
      assert order == [e] + order[1..];
      WalkNonNegative(lower, current, order[1..], snapshot[key := current[e]],
                      deltas[e := SampleDelta(snapshot, key, current[e])]);
    }
  }

  lemma {:induction false} ShareNonNegative(file: string -> string, deltas: map<string, Usage>, order: seq<string>,
                                            name: string)
    requires (forall e | e in order :: e in deltas) && NonNegative(deltas)
    ensures Share(file, deltas, order, name).up >= 0 && Share(file, deltas, order, name).down >= 0
    decreases order
  {
    if order != [] {
      assert order == [order[0]] + order[1..];
      ShareNonNegative(file, deltas, order[1..], name);
    }
  }

  lemma FoundNonNegative(lower: string -> string, file: string -> string, env: R.Remote, m: Meter, event: Event,
                         name: string, d: Direction)
    requires LegalEvent(event)
    ensures Found(lower, file, env, m, event, name, d) >= 0
  {
    if event.Poll? && event.emails != [] {
      var emails, order := event.emails, event.order;
      var g := Gather(env, file, m.server, emails).1;
      MeasureKeys(lower, file, env, m.server, m.snapshot, emails, order);
      if g.Some? {
        MeasureIs(lower, file, env, m.server, m.snapshot, emails, order);
        var deltas := NormalizeDeltas(lower, m.snapshot, g.value, order).1;
        WalkNonNegative(lower, g.value, order, m.snapshot, map[]);
        assert |g.value| == 0 ==> g.value == map[];
        assert NonNegative(deltas);
        ShareNonNegative(file, deltas, order, name);
      }
      hide Gather, Walk, Share, NormalizeDeltas;
    }
  }

  lemma EventMissing(lower: string -> string, file: string -> string, env: R.Remote, m: Meter, event: Event,
                     name: string, d: Direction)
    requires LegalEvent(event)
    ensures Missing(NextMeter(lower, file, env, m, event), name, d)
         == Missing(m, name, d) + if Unposted(event) then Found(lower, file, env, m, event, name, d) else 0
  {
    hide *;
    if event.Poll? && event.emails != [] {
      UnpostedPoll(event);
      PollIsNext(lower, file, env, m, event.emails, event.order, event.posted);
      PollMissing(lower, file, env, m, event.emails, event.order, event.posted, name, d);
    } else {
      NothingMissing(lower, file, env, m, event, name, d);
    }
  }

  lemma UnpostedPoll(event: Event)
    requires event.Poll?
    ensures event == Poll(event.emails, event.order, event.posted) && (Unposted(event) <==> !event.posted)
  {
  }

  lemma NothingMissing(lower: string -> string, file: string -> string, env: R.Remote, m: Meter, event: Event,
                       name: string, d: Direction)
    requires LegalEvent(event) && (event.Poll? ==> event.emails == [])
    ensures Missing(NextMeter(lower, file, env, m, event), name, d) == Missing(m, name, d)
    ensures Found(lower, file, env, m, event, name, d) == 0
  {
    hide R.Total, PollMeter, Measure, At, Pick, Share;
  }

  lemma PollMissing(lower: string -> string, file: string -> string, env: R.Remote, m: Meter, emails: seq<string>,
                    order: seq<string>, posted: bool, name: string, d: Direction)
    requires IsOrderOf(order, Addresses(emails)) && emails != []
    ensures Missing(PollMeter(lower, file, env, m, emails, order, posted), name, d)
         == Missing(m, name, d)
            + if posted then 0 else Found(lower, file, env, m, Poll(emails, order, posted), name, d)
  {
    var m' := PollMeter(lower, file, env, m, emails, order, posted);
    RowIs(m, name, None, d);
    RowIs(m', name, None, d);
    if Gather(env, file, m.server, emails).1.Some? {
      PolledReported(lower, file, env, m, emails, order, posted, name, None, d);
    } else {
      FailedRow(lower, file, env, m, emails, order, posted, name, None, d);
      PassIs(RowOf(m, name, None, d), env, CounterOf(name, d), m.server.clock,
             Gather(env, file, m.server, emails).0.clock);
    }
    hide PollMeter, Measure, Share, At, Pass, RowOf;
  }

  /** On every run, whoever shares what: the panel misses exactly what polls found and could not post, and it has
      everything that was reported if and only if every poll that found something was posted. */
  lemma {:induction false} UndeliveredIff(lower: string -> string, file: string -> string, env: R.Remote, m: Meter,
                                          events: seq<Event>, name: string, d: Direction)
    requires Legal(events)
    ensures
      var m', lost := MeterAfter(lower, file, env, m, events), LostOver(lower, file, env, m, events, name, d);
      && lost >= 0 && Missing(m', name, d) == Missing(m, name, d) + lost
      && (Missing(m', name, d) == Missing(m, name, d) <==> AllPosted(lower, file, env, m, events, name, d))
    decreases events
  {
    if events != [] {
      assert Legal(events[1..]);
      hide NextMeter, Missing, Found, Unposted;
      EventMissing(lower, file, env, m, events[0], name, d);
      FoundNonNegative(lower, file, env, m, events[0], name, d);
      UndeliveredIff(lower, file, env, NextMeter(lower, file, env, m, events[0]), events[1..], name, d);
    }
  }

  /** So while a counter is not reset and every successful poll samples it, the panel receives every byte but those
      the next sample will add, if and only if every poll that found something was posted. */
  lemma DeliveredIff(lower: string -> string, file: string -> string, addresses: iset<string>, env: R.Remote, m: Meter,
                     events: seq<Event>, name: string, key: Option<string>, d: Direction)
    requires Legal(events) && Over(addresses, events) && Apart(lower, file, addresses)
    requires Tied(lower, file, addresses, name, key)
    requires AllUndisturbed(lower, file, env, m, events, CounterOf(name, d)) && Complete(RowOf(m, name, key, d))
    requires Missing(m, name, d) == 0
    ensures var r := RowOf(MeterAfter(lower, file, env, m, events), name, key, d);
      r.carried == r.delivered + Pending(r) <==> AllPosted(lower, file, env, m, events, name, d)
  {
    NoUnderReporting(lower, file, addresses, env, m, events, name, key, d);
    UndeliveredIff(lower, file, env, m, events, name, d);
    hide MeterAfter, AllPosted, LostOver, Apart, Tied, Legal, Over, AllUndisturbed;
  }
}
