/** Usage reports: what a round of the usage loop sends, and what the panel's books are after any number of them. */
module Reporting {
  import opened Model
  import opened Diff
  import opened Usage
  import Meter
  import ResetRead

  /** One line of a usage report. */
  datatype UserUsage = UserUsage(email: string, usage: Usage)

  /** A usage report that was sent, and whether it reached the panel. */
  datatype Push = Push(report: seq<UserUsage>, arrived: bool)

  /** The report: the listed addresses that were measured, lower-cased, in list order. */
  function Report(lower: string -> string, emails: seq<string>, deltas: map<string, Usage>): seq<UserUsage> {
    if emails == [] then []
    else if emails[0] in deltas
    then [UserUsage(lower(emails[0]), deltas[emails[0]])] + Report(lower, emails[1..], deltas)
    else Report(lower, emails[1..], deltas)
  }

  /** The panel's books after it has added up a report. */
  function Received(books: map<string, Usage>, report: seq<UserUsage>): map<string, Usage>
    decreases report
  {
    if report == [] then books
    else Received(Plus(books, report[0].email, report[0].usage.up, report[0].usage.down), report[1..])
  }

  lemma {:induction false} ReportIsCredit(lower: string -> string, books: map<string, Usage>, emails: seq<string>,
                                          deltas: map<string, Usage>)
    requires forall e | e in emails :: e in deltas
    ensures Received(books, Report(lower, emails, deltas)) == Credit(lower, books, deltas, emails)
    decreases emails
  {
    if emails != [] {
      var e := emails[0];
      assert emails == [e] + emails[1..];
      assert Report(lower, emails, deltas)[1..] == Report(lower, emails[1..], deltas);
      ReportIsCredit(lower, Plus(books, lower(e), deltas[e].up, deltas[e].down), emails[1..], deltas);
    }
  }

  /** Reading the samples in one order and reporting them in another books the same bytes for everybody. */
  lemma ReportBooks(lower: string -> string, books: map<string, Usage>, emails: set<string>,
                    deltas: map<string, Usage>, order: seq<string>, listed: seq<string>, a: string)
    requires IsOrderOf(order, emails) && IsOrderOf(listed, emails) && emails <= deltas.Keys
    ensures At(Received(books, Report(lower, listed, deltas)), a) == At(Credit(lower, books, deltas, order), a)
  {
    ReportIsCredit(lower, books, listed, deltas);
    CreditIsShare(lower, books, deltas, listed, a);
    CreditIsShare(lower, books, deltas, order, a);
    SharePermuted(lower, deltas, listed, order, emails, a);
  }

  // ---------- one round ----------

  /** A core with a counter for every address is measured by asking the collector and taking differences. */
  lemma MeasureIsQuery(lower: string -> string, env: ResetRead.Remote, s: ResetRead.Server,
                       snapshot: map<string, Usage>, emails: seq<string>, order: seq<string>)
    requires IsOrderOf(order, Meter.Addresses(emails))
    ensures
      var r := ResetRead.QueryUserBytes(env, false, s, emails);
      && (r.usage.Some? ==> Meter.AsUsage(r.usage.value).Keys == Meter.Addresses(emails))
      && Meter.Measure(lower, Meter.Same, env, s, snapshot, emails, order) ==
           if r.usage.None? then (r.server, snapshot, None)
           else
             assert forall e | e in order :: e in Meter.AsUsage(r.usage.value);
             var (next, deltas) := NormalizeDeltas(lower, snapshot, Meter.AsUsage(r.usage.value), order);
             (r.server, next, Some(deltas))
  {
    Meter.GatherIsQuery(env, s, emails);
    Meter.GatherKeys(env, Meter.Same, s, emails);
    hide ResetRead.QueryUserBytes, Meter.Gather, NormalizeDeltas, Meter.AsUsage;
  }

  /** One round of the usage loop: in delta mode a poll of `Meter`, in reset mode one of `ResetRead`; what it leaves
      of counters and snapshot, and the bytes to report, none when a query failed. */
  function Collect(lower: string -> string, reset: bool, env: ResetRead.Remote, s: ResetRead.Server,
                   snapshot: map<string, Usage>, emails: seq<string>, order: seq<string>)
    : (ResetRead.Server, map<string, Usage>, Option<map<string, Usage>>)
    requires IsOrderOf(order, Meter.Addresses(emails))
  {
    if !reset then Meter.Measure(lower, Meter.Same, env, s, snapshot, emails, order)
    else
      var r := ResetRead.QueryUserBytes(env, true, s, emails);
      if r.usage.None? then (r.server, snapshot, None) else (r.server, map[], Some(Meter.AsUsage(r.usage.value)))
  }

  lemma CollectIsQuery(lower: string -> string, reset: bool, env: ResetRead.Remote, s: ResetRead.Server,
                       snapshot: map<string, Usage>, emails: seq<string>, order: seq<string>)
    requires IsOrderOf(order, Meter.Addresses(emails))
    ensures
      var r := ResetRead.QueryUserBytes(env, reset, s, emails);
      var (server, next, bytes) := Collect(lower, reset, env, s, snapshot, emails, order);
      && server == r.server && (bytes.Some? <==> r.usage.Some?)
      && (bytes.None? ==> next == snapshot)
      && (reset && bytes.Some? ==> next == map[] && bytes.value == Meter.AsUsage(r.usage.value))
      && (!reset && bytes.Some? ==>
            && Meter.AsUsage(r.usage.value).Keys == Meter.Addresses(emails)
            && (forall e | e in order :: e in Meter.AsUsage(r.usage.value))
            && (next, bytes.value) == NormalizeDeltas(lower, snapshot, Meter.AsUsage(r.usage.value), order))
  {
    MeasureIsQuery(lower, env, s, snapshot, emails, order);
    hide ResetRead.QueryUserBytes, Meter.Measure, NormalizeDeltas, Meter.AsUsage;
  }

  lemma QueryUnfold(env: ResetRead.Remote, reset: bool, s: ResetRead.Server, emails: seq<string>)
    requires emails != []
    ensures
      var r, first := ResetRead.QueryUserBytes(env, reset, s, emails), ResetRead.Fetch(env, reset, s, emails[0]);
      var rest := ResetRead.QueryUserBytes(env, reset, first.server, emails[1..]);
      r.usage.Some? ==>
        first.usage.Some? && rest.usage.Some? && r.usage.value == map[emails[0] := first.usage.value] + rest.usage.value
  {
    hide ResetRead.Fetch, ResetRead.Total;
  }

  lemma AddressesOf(emails: seq<string>)
    ensures Meter.Addresses([]) == {} && Meter.AsUsage(map[]).Keys == {}
    ensures emails != [] ==> Meter.Addresses(emails) == {emails[0]} + Meter.Addresses(emails[1..])
  {
    assert emails != [] ==> emails == [emails[0]] + emails[1..];
  }

  lemma {:induction false} UsageKeys(env: ResetRead.Remote, reset: bool, s: ResetRead.Server, emails: seq<string>)
    ensures
      var r := ResetRead.QueryUserBytes(env, reset, s, emails);
      r.usage.Some? ==> Meter.AsUsage(r.usage.value).Keys == Meter.Addresses(emails)
    decreases emails
  {
    AddressesOf(emails);
    if emails != [] {
      hide *;
      var first := ResetRead.Fetch(env, reset, s, emails[0]);
      QueryUnfold(env, reset, s, emails);
      UsageKeys(env, reset, first.server, emails[1..]);
      var rest := ResetRead.QueryUserBytes(env, reset, first.server, emails[1..]).usage;
      if first.usage.Some? && rest.Some? {
        Meter.AsUsagePlus(emails[0], first.usage.value, rest.value);
      }
    }
  }

  /** A round finds something to report for exactly the listed addresses, if and only if all its queries, two for each
      of them, are answered. */
  lemma CollectAnsweredIff(lower: string -> string, reset: bool, env: ResetRead.Remote, s: ResetRead.Server,
                           snapshot: map<string, Usage>, emails: seq<string>, order: seq<string>)
    requires IsOrderOf(order, Meter.Addresses(emails))
    ensures
      var bytes := Collect(lower, reset, env, s, snapshot, emails, order).2;
      && (bytes.Some? <==> ResetRead.AllAnswered(env, s.clock, s.clock + 2 * |emails|))
      && (bytes.Some? ==> bytes.value.Keys == Meter.Addresses(emails))
  {
    CollectIsQuery(lower, reset, env, s, snapshot, emails, order);
    UsageKeys(env, reset, s, emails);
    ResetRead.PollSucceedsIff(env, reset, s, emails);
    if !reset {
      Meter.MeasureKeys(lower, Meter.Same, env, s, snapshot, emails, order);
    }
    hide ResetRead.QueryUserBytes, Meter.Measure, NormalizeDeltas, Meter.AsUsage, ResetRead.AllAnswered;
  }

  lemma ReportLength(lower: string -> string, emails: seq<string>, bytes: map<string, Usage>)
    requires forall e | e in emails :: e in bytes
    ensures |Report(lower, emails, bytes)| == |emails|
  {
    if emails != [] {
      assert emails == [emails[0]] + emails[1..];
      ReportLength(lower, emails[1..], bytes);
    }
  }

  // ---------- the panel's books ----------

  /** The panel's books after it has added up the reports that arrived. */
  function ReceivedAll(books: map<string, Usage>, pushes: seq<Push>): map<string, Usage>
    decreases pushes
  {
    if pushes == [] then books
    else ReceivedAll(if pushes[0].arrived then Received(books, pushes[0].report) else books, pushes[1..])
  }

  /** What books kept by counter hold for all the named addresses that read alike in lower case. */
  function Folded(lower: string -> string, books: map<string, Usage>, names: seq<string>, a: string): Usage {
    if names == [] then ZERO
    else Sum(if lower(names[0]) == a then At(books, names[0]) else ZERO, Folded(lower, books, names[1..], a))
  }

  /** Books kept by counter say what the panel's books say: each of the panel's entries is the sum over the addresses
      that it stands for. */
  ghost predicate Agree(lower: string -> string, books: map<string, Usage>, received: map<string, Usage>) {
    forall names: seq<string>, a: string | ResetRead.Distinct(names) && (forall e | e in books :: e in names) ::
      At(received, a) == Folded(lower, books, names, a)
  }

  lemma FoldedHead(lower: string -> string, bytes: map<string, Usage>, names: seq<string>, a: string)
    requires names != []
    ensures Folded(lower, bytes, names, a)
         == Sum(if lower(names[0]) == a then At(bytes, names[0]) else ZERO, Folded(lower, bytes, names[1..], a))
  {
  }

  lemma {:induction false} FoldedSum(lower: string -> string, before: map<string, Usage>, more: map<string, Usage>,
                                     after: map<string, Usage>, names: seq<string>, a: string)
    requires forall e :: At(after, e) == Sum(At(before, e), At(more, e))
    ensures Folded(lower, after, names, a) == Sum(Folded(lower, before, names, a), Folded(lower, more, names, a))
  {
    hide *;
    if names == [] {
      FoldedNobody(lower, before, more, after, a);
    } else {
      var n, rest := names[0], names[1..];
      FoldedHead(lower, before, names, a);
      FoldedHead(lower, more, names, a);
      FoldedHead(lower, after, names, a);
      FoldedSum(lower, before, more, after, rest, a);
      assert At(after, n) == Sum(At(before, n), At(more, n));
      SumZero(ZERO);
      var x, y := if lower(n) == a then At(before, n) else ZERO, if lower(n) == a then At(more, n) else ZERO;
      SumSwap(x, y, Folded(lower, before, rest, a), Folded(lower, more, rest, a));
    }
  }

  lemma FoldedNobody(lower: string -> string, before: map<string, Usage>, more: map<string, Usage>,
                     after: map<string, Usage>, a: string)
    ensures Folded(lower, after, [], a) == Sum(Folded(lower, before, [], a), Folded(lower, more, [], a))
  {
  }

  lemma SumSwap(x: Usage, y: Usage, u: Usage, v: Usage)
    ensures Sum(Sum(x, y), Sum(u, v)) == Sum(Sum(x, u), Sum(y, v))
  {
  }

  lemma {:induction false} FoldedSame(lower: string -> string, bytes: map<string, Usage>, fewer: map<string, Usage>,
                                      names: seq<string>, a: string)
    requires forall e | e in names :: At(bytes, e) == At(fewer, e)
    ensures Folded(lower, bytes, names, a) == Folded(lower, fewer, names, a)
  {
    hide At;
    if names != [] {
      assert names == [names[0]] + names[1..];
      FoldedSame(lower, bytes, fewer, names[1..], a);
    }
  }

  /** What a report contributes to an entry of the panel, summed by address instead of by line. */
  lemma {:induction false} FoldedShare(lower: string -> string, bytes: map<string, Usage>, emails: seq<string>,
                                       names: seq<string>, a: string)
    requires ResetRead.Distinct(names) && IsOrderOf(emails, bytes.Keys) && bytes.Keys <= set n | n in names
    ensures Folded(lower, bytes, names, a) == Share(lower, bytes, emails, a)
    decreases names
  {
    if names == [] {
      HasMember(emails);
    } else {
      var n, rest := names[0], names[1..];
      ResetRead.DistinctTail(names);
      if n in bytes {
        var i := PositionOf(emails, bytes.Keys, n);
        var fewer := bytes - {n};
        OrderWithout(emails, bytes.Keys, i);
        assert fewer.Keys == bytes.Keys - {n};
        ShareWithout(lower, bytes, emails, i, a);
        ShareSame(lower, bytes, fewer, Dropped(emails, i), a);
        FoldedSame(lower, bytes, fewer, rest, a);
        FoldedShare(lower, fewer, Dropped(emails, i), rest, a);
        hide Share, Folded, Sum, ResetRead.Distinct, IsOrderOf;
        FoldedHead(lower, bytes, names, a);
      } else {
        FoldedShare(lower, bytes, emails, rest, a);
        FoldedHead(lower, bytes, names, a);
        SumZero(Folded(lower, bytes, rest, a));
      }
    }
  }

  lemma {:induction false} ShareSame(lower: string -> string, bytes: map<string, Usage>, fewer: map<string, Usage>,
                                     order: seq<string>, a: string)
    requires forall e | e in order :: e in bytes && e in fewer && bytes[e] == fewer[e]
    ensures Share(lower, bytes, order, a) == Share(lower, fewer, order, a)
    decreases order
  {
    if order != [] {
      assert order == [order[0]] + order[1..];
      ShareSame(lower, bytes, fewer, order[1..], a);
    }
  }

  lemma ReceivedIs(lower: string -> string, received: map<string, Usage>, emails: seq<string>,
                   bytes: map<string, Usage>, a: string)
    requires forall e | e in emails :: e in bytes
    ensures At(Received(received, Report(lower, emails, bytes)), a)
         == Sum(At(received, a), Share(lower, bytes, emails, a))
  {
    hide Report, Received, Credit, Share, At;
    ReportIsCredit(lower, received, emails, bytes);
    CreditIsShare(lower, received, bytes, emails, a);
  }

  /** One more report that arrives, and books by counter that grow by the same bytes. */
  lemma AgreeMore(lower: string -> string, before: map<string, Usage>, bytes: map<string, Usage>,
                  after: map<string, Usage>, emails: seq<string>, received: map<string, Usage>)
    requires Agree(lower, before, received) && IsOrderOf(emails, bytes.Keys)
    requires forall e :: At(after, e) == Sum(At(before, e), At(bytes, e))
    requires before.Keys <= after.Keys && bytes.Keys <= after.Keys
    ensures Agree(lower, after, Received(received, Report(lower, emails, bytes)))
  {
    hide *;
    forall names: seq<string>, a: string | ResetRead.Distinct(names) && (forall e | e in after :: e in names)
      ensures At(Received(received, Report(lower, emails, bytes)), a) == Folded(lower, after, names, a)
    {
      AgreeAt(lower, before, received, names, a);
      AgreeMoreAt(lower, before, bytes, after, emails, received, names, a);
    }
    AgreeIf(lower, after, Received(received, Report(lower, emails, bytes)));
  }

  lemma AgreeIf(lower: string -> string, books: map<string, Usage>, received: map<string, Usage>)
    requires forall names: seq<string>, a: string |
               ResetRead.Distinct(names) && (forall e | e in books :: e in names) ::
               At(received, a) == Folded(lower, books, names, a)
    ensures Agree(lower, books, received)
  {
    hide At, Folded, ResetRead.Distinct;
  }

  lemma AgreeAt(lower: string -> string, books: map<string, Usage>, received: map<string, Usage>, names: seq<string>,
                a: string)
    requires Agree(lower, books, received) && ResetRead.Distinct(names) && forall e | e in books :: e in names
    ensures At(received, a) == Folded(lower, books, names, a)
  {
    hide At, Folded, ResetRead.Distinct;
  }

  lemma AllNamed(emails: seq<string>, bytes: map<string, Usage>, after: map<string, Usage>, names: seq<string>)
    requires IsOrderOf(emails, bytes.Keys) && bytes.Keys <= after.Keys && forall e | e in after :: e in names
    ensures bytes.Keys <= (set n | n in names) && forall e | e in emails :: e in bytes
  {
  }

  lemma AgreeMoreAt(lower: string -> string, before: map<string, Usage>, bytes: map<string, Usage>,
                    after: map<string, Usage>, emails: seq<string>, received: map<string, Usage>, names: seq<string>,
                    a: string)
    requires At(received, a) == Folded(lower, before, names, a) && IsOrderOf(emails, bytes.Keys)
    requires forall e :: At(after, e) == Sum(At(before, e), At(bytes, e))
    requires ResetRead.Distinct(names) && (forall e | e in after :: e in names) && bytes.Keys <= after.Keys
    ensures At(Received(received, Report(lower, emails, bytes)), a) == Folded(lower, after, names, a)
  {
    hide *;
    AllNamed(emails, bytes, after, names);
    ReceivedIs(lower, received, emails, bytes, a);
    FoldedSum(lower, before, bytes, after, names, a);
    FoldedShare(lower, bytes, emails, names, a);
  }

  // ---------- in delta mode ----------

  lemma {:induction false} CreditKeys(books: map<string, Usage>, deltas: map<string, Usage>, order: seq<string>)
    requires forall e | e in order :: e in deltas
    ensures forall e :: e in Credit(Meter.Same, books, deltas, order) <==> e in books || e in order
    decreases order
  {
    if order != [] {
      var e := order[0];
      assert order == [e] + order[1..];
      CreditKeys(Plus(books, e, deltas[e].up, deltas[e].down), deltas, order[1..]);
    }
  }

  lemma OwnShare(deltas: map<string, Usage>, order: seq<string>, e: string)
    requires IsOrderOf(order, deltas.Keys)
    ensures Share(Meter.Same, deltas, order, e) == At(deltas, e)
  {
    hide Share;
    if e in deltas {
      Meter.ShareOfOne(Meter.Same, deltas, order, deltas.Keys, e);
    } else {
      Meter.ShareOfNone(Meter.Same, deltas, order, e);
    }
  }

  lemma CreditGrows(books: map<string, Usage>, deltas: map<string, Usage>, order: seq<string>)
    requires IsOrderOf(order, deltas.Keys)
    ensures
      var after := Credit(Meter.Same, books, deltas, order);
      && (forall e :: At(after, e) == Sum(At(books, e), At(deltas, e)))
      && books.Keys <= after.Keys && deltas.Keys <= after.Keys
  {
    CreditKeys(books, deltas, order);
    forall e ensures At(Credit(Meter.Same, books, deltas, order), e) == Sum(At(books, e), At(deltas, e)) {
      CreditIsShare(Meter.Same, books, deltas, order, e);
      OwnShare(deltas, order, e);
    }
    hide Credit, At, Share;
  }

  /** A round in delta mode is a poll of `Meter`, and its report, if it arrives, tells the panel what was delivered. */
  lemma PollAgrees(lower: string -> string, env: ResetRead.Remote, m: Meter.Meter, emails: seq<string>,
                   order: seq<string>, posted: bool, received: map<string, Usage>)
    requires Meter.LegalEvent(Meter.Poll(emails, order, posted)) && emails != []
    requires IsOrderOf(emails, Meter.Addresses(emails))
    requires Agree(lower, m.delivered, received)
    ensures
      var (server, next, bytes) := Collect(lower, false, env, m.server, m.snapshot, emails, order);
      var m' := Meter.NextMeter(lower, Meter.Same, env, m, Meter.Poll(emails, order, posted));
      && m'.server == server && m'.snapshot == next
      && Agree(lower, m'.delivered,
               if posted && bytes.Some? then Received(received, Report(lower, emails, bytes.value)) else received)
  {
    Meter.MeasureKeys(lower, Meter.Same, env, m.server, m.snapshot, emails, order);
    var bytes := Meter.Measure(lower, Meter.Same, env, m.server, m.snapshot, emails, order).2;
    hide Meter.Measure, Agree, Received, Report, Credit, At, Meter.Sampled, Meter.Since;
    if posted && bytes.Some? {
      CreditGrows(m.delivered, bytes.value, order);
      AgreeMore(lower, m.delivered, bytes.value, Credit(Meter.Same, m.delivered, bytes.value, order), emails, received);
    }
  }

  // ---------- in reset mode ----------

  function PanelBooks(t: ResetRead.Tally): map<string, Usage> {
    map e | e in (set c | c in t :: c.email) ::
      Usage(ResetRead.Count(t, ResetRead.Uplink(e)), ResetRead.Count(t, ResetRead.Downlink(e)))
  }

  lemma PanelBooksAt(t: ResetRead.Tally, e: string)
    ensures At(PanelBooks(t), e)
         == Usage(ResetRead.Count(t, ResetRead.Uplink(e)), ResetRead.Count(t, ResetRead.Downlink(e)))
  {
    assert ResetRead.Uplink(e) in t ==> ResetRead.Uplink(e).email in PanelBooks(t);
    assert ResetRead.Downlink(e) in t ==> ResetRead.Downlink(e).email in PanelBooks(t);
  }

  lemma PanelBooksGrow(delivered: ResetRead.Tally, usage: map<string, ResetRead.Bytes>)
    ensures
      var before, bytes := PanelBooks(delivered), Meter.AsUsage(usage);
      var after := PanelBooks(ResetRead.Total(delivered, ResetRead.Reports(usage)));
      && (forall e :: At(after, e) == Sum(At(before, e), At(bytes, e)))
      && before.Keys <= after.Keys && bytes.Keys <= after.Keys
  {
    var total := ResetRead.Total(delivered, ResetRead.Reports(usage));
    forall e ensures At(PanelBooks(total), e) == Sum(At(PanelBooks(delivered), e), At(Meter.AsUsage(usage), e)) {
      PanelBooksGrowAt(delivered, usage, e);
    }
    PanelBooksKeys(delivered);
    PanelBooksKeys(total);
    ReportedKeys(delivered, usage);
    hide PanelBooks, ResetRead.Total, ResetRead.Reports, At, Sum;
  }

  lemma PanelBooksKeys(t: ResetRead.Tally)
    ensures forall e :: e in PanelBooks(t) <==> ResetRead.Uplink(e) in t || ResetRead.Downlink(e) in t
  {
    forall e ensures e in PanelBooks(t) <==> ResetRead.Uplink(e) in t || ResetRead.Downlink(e) in t {
      assert ResetRead.Uplink(e) in t ==> ResetRead.Uplink(e).email in PanelBooks(t);
      assert ResetRead.Downlink(e) in t ==> ResetRead.Downlink(e).email in PanelBooks(t);
      if e in PanelBooks(t) {
        var c :| c in t && c.email == e;
        assert c == ResetRead.Uplink(e) || c == ResetRead.Downlink(e);
      }
    }
  }

  lemma ReportedKeys(delivered: ResetRead.Tally, usage: map<string, ResetRead.Bytes>)
    ensures
      var total := ResetRead.Total(delivered, ResetRead.Reports(usage));
      && (forall c | c in delivered :: c in total)
      && (forall e | e in Meter.AsUsage(usage) :: ResetRead.Uplink(e) in total)
  {
  }

  lemma PanelBooksGrowAt(delivered: ResetRead.Tally, usage: map<string, ResetRead.Bytes>, e: string)
    ensures
      At(PanelBooks(ResetRead.Total(delivered, ResetRead.Reports(usage))), e)
        == Sum(At(PanelBooks(delivered), e), At(Meter.AsUsage(usage), e))
  {
    hide *;
    var reports := ResetRead.Reports(usage);
    PanelBooksAt(delivered, e);
    PanelBooksAt(ResetRead.Total(delivered, reports), e);
    ResetRead.TotalCount(delivered, reports, ResetRead.Uplink(e));
    ResetRead.TotalCount(delivered, reports, ResetRead.Downlink(e));
    ResetRead.ReportsCount(usage, ResetRead.Uplink(e));
    ResetRead.ReportsCount(usage, ResetRead.Downlink(e));
    ReportedAt(usage, e);
    SumOf(ResetRead.Count(delivered, ResetRead.Uplink(e)), ResetRead.Count(delivered, ResetRead.Downlink(e)),
          ResetRead.Count(reports, ResetRead.Uplink(e)), ResetRead.Count(reports, ResetRead.Downlink(e)));
  }

  lemma ReportedAt(usage: map<string, ResetRead.Bytes>, e: string)
    ensures At(Meter.AsUsage(usage), e)
         == Usage(ResetRead.Reported(usage, ResetRead.Uplink(e)), ResetRead.Reported(usage, ResetRead.Downlink(e)))
  {
  }

  lemma SumOf(up: int, down: int, moreUp: int, moreDown: int)
    ensures Sum(Usage(up, down), Usage(moreUp, moreDown)) == Usage(up + moreUp, down + moreDown)
  {
  }

  /** A round in reset mode is one of `ResetRead`. */
  lemma RoundAgrees(lower: string -> string, env: ResetRead.Remote, b: ResetRead.Books, snapshot: map<string, Usage>,
                    emails: seq<string>, order: seq<string>, posted: bool, received: map<string, Usage>)
    requires IsOrderOf(order, Meter.Addresses(emails)) && IsOrderOf(emails, Meter.Addresses(emails))
    requires Agree(lower, PanelBooks(b.delivered), received)
    ensures
      var (server, next, bytes) := Collect(lower, true, env, b.server, snapshot, emails, order);
      var b' := ResetRead.NextBooks(env, b, ResetRead.Poll(emails, posted));
      && b'.server == server
      && Agree(lower, PanelBooks(b'.delivered),
               if posted && bytes.Some? then Received(received, Report(lower, emails, bytes.value)) else received)
  {
    var r := ResetRead.QueryUserBytes(env, true, b.server, emails);
    UsageKeys(env, true, b.server, emails);
    hide ResetRead.QueryUserBytes, Agree, Received, Report, At, PanelBooks, ResetRead.Total, ResetRead.Reports;
    hide ResetRead.ArrivedTally, Meter.AsUsage;
    if posted && r.usage.Some? {
      PanelBooksGrow(b.delivered, r.usage.value);
      AgreeMore(lower, PanelBooks(b.delivered), Meter.AsUsage(r.usage.value),
                PanelBooks(ResetRead.Total(b.delivered, ResetRead.Reports(r.usage.value))), emails, received);
    }
  }

  // ---------- whole runs of the usage loop ----------

  /** What happens around the usage loop: traffic, restarts of the core, and its own rounds. */
  predicate SameEvent(event: Meter.Event, round: ResetRead.Round) {
    match event
    case Traffic(bytes) => round == ResetRead.Traffic(bytes)
    case CounterReset(_) => false
    case CoreReset => round == ResetRead.CoreReset
    case Poll(emails, _, posted) => round == ResetRead.Poll(emails, posted)
  }

  /** The same run in the terms of `ResetRead`. */
  ghost predicate SameRun(events: seq<Meter.Event>, rounds: seq<ResetRead.Round>) {
    |events| == |rounds| && forall i | 0 <= i < |events| :: SameEvent(events[i], rounds[i])
  }

  lemma {:induction false} MeterMore(lower: string -> string, env: ResetRead.Remote, m: Meter.Meter,
                                     events: seq<Meter.Event>, event: Meter.Event)
    requires Meter.Legal(events) && Meter.LegalEvent(event)
    ensures Meter.Legal(events + [event])
    ensures Meter.MeterAfter(lower, Meter.Same, env, m, events + [event])
         == Meter.NextMeter(lower, Meter.Same, env, Meter.MeterAfter(lower, Meter.Same, env, m, events), event)
    decreases events
  {
    hide Meter.NextMeter, Meter.LegalEvent;
    var more := events + [event];
    forall i | 0 <= i < |more| ensures Meter.LegalEvent(more[i]) {
      assert i < |events| ==> more[i] == events[i];
    }
    if events == [] {
      assert more == [event] && more[1..] == [];
    } else {
      assert more[0] == events[0] && more[1..] == events[1..] + [event];
      assert Meter.Legal(events[1..]);
      MeterMore(lower, env, Meter.NextMeter(lower, Meter.Same, env, m, events[0]), events[1..], event);
    }
  }

  lemma {:induction false} BooksMore(env: ResetRead.Remote, b: ResetRead.Books, rounds: seq<ResetRead.Round>,
                                     round: ResetRead.Round)
    ensures ResetRead.BooksAfter(env, b, rounds + [round])
         == ResetRead.NextBooks(env, ResetRead.BooksAfter(env, b, rounds), round)
    decreases rounds
  {
    hide ResetRead.NextBooks;
    if rounds == [] {
      assert [] + [round] == [round] && [round][1..] == [];
    } else {
      assert (rounds + [round])[0] == rounds[0] && (rounds + [round])[1..] == rounds[1..] + [round];
      BooksMore(env, ResetRead.NextBooks(env, b, rounds[0]), rounds[1..], round);
    }
  }

  lemma NothingDelivered(lower: string -> string)
    ensures Agree(lower, map[], map[]) && Agree(lower, PanelBooks(map[]), map[])
  {
    forall names: seq<string>, a: string ensures Folded(lower, map[], names, a) == ZERO {
      FoldedNone(lower, names, a);
    }
  }

  lemma {:induction false} FoldedNone(lower: string -> string, names: seq<string>, a: string)
    ensures Folded(lower, map[], names, a) == ZERO
  {
    if names != [] {
      FoldedNone(lower, names[1..], a);
    }
  }

  lemma {:induction false} ReceivedAppend(books: map<string, Usage>, xs: seq<Push>, ys: seq<Push>)
    ensures ReceivedAll(books, xs + ys) == ReceivedAll(ReceivedAll(books, xs), ys)
    decreases xs
  {
    if xs == [] {
      assert xs + ys == ys;
    } else {
      assert (xs + ys)[0] == xs[0] && (xs + ys)[1..] == xs[1..] + ys;
      hide Received;
      ReceivedAppend(if xs[0].arrived then Received(books, xs[0].report) else books, xs[1..], ys);
    }
  }

  lemma ReceivedOne(books: map<string, Usage>, push: Push)
    ensures ReceivedAll(books, []) == books
    ensures ReceivedAll(books, [push]) == if push.arrived then Received(books, push.report) else books
  {
    assert [push][1..] == [];
  }

  lemma NobodyAgrees(lower: string -> string, env: ResetRead.Remote, b: ResetRead.Books, posted: bool,
                     received: map<string, Usage>)
    requires Agree(lower, PanelBooks(b.delivered), received)
    ensures
      var b' := ResetRead.NextBooks(env, b, ResetRead.Poll([], posted));
      b'.server == b.server && Agree(lower, PanelBooks(b'.delivered), received)
  {
    var none: seq<string> := [];
    assert Meter.Addresses(none) == {};
    RoundAgrees(lower, env, b, map[], none, none, posted, received);
    assert Report(lower, none, map[]) == [];
    assert Received(received, []) == received;
    assert ResetRead.QueryUserBytes(env, true, b.server, none) == ResetRead.Polled(b.server, Some(map[]), map[], map[]);
    hide Agree, PanelBooks;
  }
}
