/** Usage accounting: cumulative counters, which may be reset at any time, turned into deltas to report. */
module Usage {
  import opened Model
  import opened Diff

  datatype Usage = Usage(up: int, down: int)

  const ZERO := Usage(0, 0)

  /** A counter below its last sample has been reset, so all it shows is new. */
  function CounterDelta(prev: int, curr: int): int {
    if curr <= 0 then 0
    else if curr >= prev then curr - prev
    else curr
  }

  /** The first sample of an address only starts the count. */
  function SampleDelta(snapshot: map<string, Usage>, key: string, now: Usage): Usage {
    if key in snapshot
    then Usage(CounterDelta(snapshot[key].up, now.up), CounterDelta(snapshot[key].down, now.down))
    else ZERO
  }

  function Sum(x: Usage, y: Usage): Usage {
    Usage(x.up + y.up, x.down + y.down)
  }

  /** Samples taken in the given order; entries share a snapshot when their lower-cased addresses agree. */
  function Walk(lower: string -> string, current: map<string, Usage>, order: seq<string>,
                snapshot: map<string, Usage>, deltas: map<string, Usage>): (map<string, Usage>, map<string, Usage>)
    requires forall e | e in order :: e in current
    decreases order
  {
    if order == [] then (snapshot, deltas)
    else
      var e, key := order[0], lower(order[0]);
      Walk(lower, current, order[1..], snapshot[key := current[e]],
           deltas[e := SampleDelta(snapshot, key, current[e])])
  }

  function Present(lower: string -> string, emails: set<string>): set<string> {
    set e | e in emails :: lower(e)
  }

  /** The snapshot to keep and the deltas to report; addresses not sampled this time are forgotten. */
  function NormalizeDeltas(lower: string -> string, snapshot: map<string, Usage>, current: map<string, Usage>,
                           order: seq<string>): (map<string, Usage>, map<string, Usage>)
    requires forall e | e in order :: e in current
  {
    if |current| == 0 then (map[], current)
    else
      var (next, deltas) := Walk(lower, current, order, snapshot, map[]);
      (map k | k in next && k in Present(lower, current.Keys) :: next[k], deltas)
  }

  /** No two of these addresses are the same but for case. */
  ghost predicate DistinctFolded(lower: string -> string, emails: set<string>) {
    forall a, b | a in emails && b in emails && lower(a) == lower(b) :: a == b
  }

  lemma {:induction false} WalkExact(lower: string -> string, current: map<string, Usage>, order: seq<string>,
                                     snapshot: map<string, Usage>, deltas: map<string, Usage>)
    requires forall e | e in order :: e in current
    requires DistinctFolded(lower, current.Keys)
    requires forall i, j | 0 <= i < j < |order| :: order[i] != order[j]
    ensures var (next, out) := Walk(lower, current, order, snapshot, deltas);
      && (forall e | e in order :: e in out && out[e] == SampleDelta(snapshot, lower(e), current[e]))
      && (forall e | e in order :: lower(e) in next && next[lower(e)] == current[e])
      && (forall e | e !in order :: (e in out <==> e in deltas) && (e in deltas ==> out[e] == deltas[e]))
    decreases order
  {
    if order != [] {
      var e, key := order[0], lower(order[0]);
      var snapshot1, deltas1 := snapshot[key := current[e]], deltas[e := SampleDelta(snapshot, key, current[e])];
      WalkExact(lower, current, order[1..], snapshot1, deltas1);
      WalkKeeps(lower, current, order[1..], snapshot1, deltas1, key);
      assert order == [e] + order[1..];
      forall f | f in order[1..] ensures lower(f) != key {
        var j :| 0 <= j < |order[1..]| && order[1..][j] == f;
        assert order[j + 1] != order[0];
      }
    }
  }

  lemma {:induction false} WalkKeeps(lower: string -> string, current: map<string, Usage>, order: seq<string>,
                                     snapshot: map<string, Usage>, deltas: map<string, Usage>, key: string)
    requires forall e | e in order :: e in current
    requires key in snapshot
    ensures var next := Walk(lower, current, order, snapshot, deltas).0;
      key in next && ((forall e | e in order :: lower(e) != key) ==> next[key] == snapshot[key])
    decreases order
  {
    if order != [] {
      var e := order[0];
      assert order == [e] + order[1..];
      WalkKeeps(lower, current, order[1..], snapshot[lower(e) := current[e]],
                deltas[e := SampleDelta(snapshot, lower(e), current[e])], key);
    }
  }

  /** Without addresses that differ in case only, the order of the samples is immaterial: each address is
      compared with its own snapshot, and the new snapshot holds exactly the sampled addresses. */
  lemma NormalizeExact(lower: string -> string, snapshot: map<string, Usage>, current: map<string, Usage>,
                       order: seq<string>)
    requires IsOrderOf(order, current.Keys) && DistinctFolded(lower, current.Keys)
    ensures var (next, deltas) := NormalizeDeltas(lower, snapshot, current, order);
      && deltas.Keys == current.Keys && next.Keys == Present(lower, current.Keys)
      && (forall e | e in current :: deltas[e] == SampleDelta(snapshot, lower(e), current[e]))
      && (forall e | e in current :: next[lower(e)] == current[e])
  {
    if |current| != 0 {
      WalkExact(lower, current, order, snapshot, map[]);
      var out := Walk(lower, current, order, snapshot, map[]).1;
      assert out.Keys == current.Keys;
    }
  }

  /** A delta never exceeds the counter it was computed from, so it fits wherever the counter does. */
  lemma DeltaBounds(prev: int, curr: int)
    requires prev >= 0
    ensures 0 <= CounterDelta(prev, curr) <= if curr > 0 then curr else 0
    ensures curr >= 0 ==> (CounterDelta(prev, curr) == curr - prev <==> curr >= prev)
  {
  }

  function SumDeltas(samples: seq<int>): int {
    if |samples| < 2 then 0 else CounterDelta(samples[0], samples[1]) + SumDeltas(samples[1..])
  }

  /** Deltas of consecutive samples telescope to last minus first exactly when no sample is below the one
      before; every reset in between adds the count it wiped out. */
  lemma {:induction false} DeltasTelescope(samples: seq<int>)
    requires samples != [] && forall i | 0 <= i < |samples| :: samples[i] >= 0
    ensures SumDeltas(samples) >= samples[|samples| - 1] - samples[0]
    ensures SumDeltas(samples) == samples[|samples| - 1] - samples[0]
       <==> forall i | 0 <= i < |samples| - 1 :: samples[i] <= samples[i + 1]
  {
    if |samples| >= 2 {
      var rest := samples[1..];
      DeltasTelescope(rest);
      assert rest[|rest| - 1] == samples[|samples| - 1] && rest[0] == samples[1];
      assert (forall i | 0 <= i < |samples| - 1 :: samples[i] <= samples[i + 1])
        <==> samples[0] <= samples[1] && forall i | 0 <= i < |rest| - 1 :: rest[i] <= rest[i + 1] by {
        assert forall i | 0 <= i < |rest| :: rest[i] == samples[i + 1];
        if forall i | 0 <= i < |samples| - 1 :: samples[i] <= samples[i + 1] {
          forall i | 0 <= i < |rest| - 1 ensures rest[i] <= rest[i + 1] {
            assert samples[i + 1] <= samples[i + 2];
          }
        }
        if samples[0] <= samples[1] && forall i | 0 <= i < |rest| - 1 :: rest[i] <= rest[i + 1] {
          forall i | 0 <= i < |samples| - 1 ensures samples[i] <= samples[i + 1] {
            assert i > 0 ==> rest[i - 1] <= rest[i];
          }
        }
      }
    }
  }

  // ---------- two samples of the same counters ----------

  ghost predicate Positive(current: map<string, Usage>) {
    forall e | e in current :: current[e].up > 0 && current[e].down > 0
  }

  /** Every snapshot taken is some sample of an address that shares it. */
  lemma {:induction false} WalkRemembers(lower: string -> string, current: map<string, Usage>, order: seq<string>,
                                         snapshot: map<string, Usage>, deltas: map<string, Usage>, k: string)
    requires forall e | e in order :: e in current
    ensures var next := Walk(lower, current, order, snapshot, deltas).0;
      if exists e :: e in order && lower(e) == k
      then k in next && exists e :: e in order && lower(e) == k && next[k] == current[e]
      else (k in next <==> k in snapshot) && (k in next ==> next[k] == snapshot[k])
    decreases order
  {
    if order != [] {
      var e := order[0];
      assert order == [e] + order[1..];
      WalkRemembers(lower, current, order[1..], snapshot[lower(e) := current[e]],
                    deltas[e := SampleDelta(snapshot, lower(e), current[e])], k);
    }
  }

  /** Sampling writes the delta of every address in the list and no other. */
  lemma {:induction false} WalkOthers(lower: string -> string, current: map<string, Usage>, order: seq<string>,
                                      snapshot: map<string, Usage>, deltas: map<string, Usage>)
    requires forall e | e in order :: e in current
    ensures var out := Walk(lower, current, order, snapshot, deltas).1;
      && (forall e :: e in out <==> e in deltas || e in order)
      && (forall e | e in deltas && e !in order :: out[e] == deltas[e])
    decreases order
  {
    if order != [] {
      var e := order[0];
      assert order == [e] + order[1..];
      WalkOthers(lower, current, order[1..], snapshot[lower(e) := current[e]],
                 deltas[e := SampleDelta(snapshot, lower(e), current[e])]);
    }
  }

  ghost predicate AllZero(deltas: map<string, Usage>, order: seq<string>) {
    forall e | e in order :: e in deltas && deltas[e] == ZERO
  }

  lemma ZeroIffSame(snapshot: map<string, Usage>, k: string, now: Usage)
    requires k in snapshot && now.up > 0 && now.down > 0
    ensures SampleDelta(snapshot, k, now) == ZERO <==> snapshot[k] == now
  {
  }

  /** Positive counters all show no difference exactly when each equals the snapshot it is compared with. */
  lemma {:induction false} WalkSilentIff(lower: string -> string, current: map<string, Usage>, order: seq<string>,
                                         snapshot: map<string, Usage>, deltas: map<string, Usage>)
    requires Positive(current) && forall e | e in order :: e in current && lower(e) in snapshot
    requires forall i, j | 0 <= i < j < |order| :: order[i] != order[j]
    ensures AllZero(Walk(lower, current, order, snapshot, deltas).1, order)
       <==> forall e | e in order :: snapshot[lower(e)] == current[e]
    decreases order
  {
    if order != [] {
      var e, rest := order[0], order[1..];
      var delta := SampleDelta(snapshot, lower(e), current[e]);
      assert order == [e] + rest;
      assert e !in rest;
      ZeroIffSame(snapshot, lower(e), current[e]);
      WalkOthers(lower, current, rest, snapshot[lower(e) := current[e]], deltas[e := delta]);
      var out := Walk(lower, current, order, snapshot, deltas).1;
      assert out[e] == delta;
      assert AllZero(out, order) <==> delta == ZERO && AllZero(out, rest);
      WalkSilentIff(lower, current, rest, snapshot[lower(e) := current[e]], deltas[e := delta]);
      if snapshot[lower(e)] == current[e] {
        assert snapshot[lower(e) := current[e]] == snapshot;
      }
    }
  }

  /** Addresses that differ in case only show equal counters. */
  ghost predicate FoldsEqual(lower: string -> string, current: map<string, Usage>) {
    forall e, f | e in current && f in current && lower(e) == lower(f) :: current[e] == current[f]
  }

  ghost predicate Settled(lower: string -> string, current: map<string, Usage>, next: map<string, Usage>) {
    forall e | e in current :: lower(e) in next && next[lower(e)] == current[e]
  }

  /** A poll repeated without any traffic reports zero for everybody exactly when the addresses that differ
      in case only show equal counters; the orders of the two polls do not matter. */
  lemma RepeatedPollSilentIff(lower: string -> string, snapshot: map<string, Usage>, current: map<string, Usage>,
                              first: seq<string>, second: seq<string>)
    requires IsOrderOf(first, current.Keys) && IsOrderOf(second, current.Keys) && Positive(current)
    ensures var next := NormalizeDeltas(lower, snapshot, current, first).0;
      AllZero(NormalizeDeltas(lower, next, current, second).1, second)
      <==> FoldsEqual(lower, current)
  {
    hide Remembers, FoldsEqual;
    var next := NormalizeDeltas(lower, snapshot, current, first).0;
    assert |current| == 0 <==> current.Keys == {};
    forall e | e in current ensures lower(e) in next && Remembers(lower, current, next, e) {
      NormalizeRemembers(lower, snapshot, current, first, e);
    }
    WalkSilentIff(lower, current, second, next, map[]);
    assert NormalizeDeltas(lower, next, current, second).1 == Walk(lower, current, second, next, map[]).1;
    assert (forall e | e in second :: next[lower(e)] == current[e]) <==> Settled(lower, current, next);
    hide NormalizeDeltas, Walk, Settled;
    RemembersEqualIff(lower, current, next);
  }

  /** The snapshot of an address is the sample of one that shares it. */
  ghost predicate Remembers(lower: string -> string, current: map<string, Usage>, next: map<string, Usage>, e: string) {
    lower(e) in next && exists f :: f in current && lower(f) == lower(e) && next[lower(e)] == current[f]
  }

  lemma NormalizeRemembers(lower: string -> string, snapshot: map<string, Usage>, current: map<string, Usage>,
                           order: seq<string>, e: string)
    requires IsOrderOf(order, current.Keys) && e in current
    ensures var next := NormalizeDeltas(lower, snapshot, current, order).0;
      lower(e) in next && Remembers(lower, current, next, e)
  {
    assert e in order;
    WalkRemembers(lower, current, order, snapshot, map[], lower(e));
    assert lower(e) in Present(lower, current.Keys);
    assert |current| == 0 ==> current.Keys == {};
  }

  lemma RemembersEqualIff(lower: string -> string, current: map<string, Usage>, next: map<string, Usage>)
    requires forall e | e in current :: Remembers(lower, current, next, e)
    ensures Settled(lower, current, next) <==> FoldsEqual(lower, current)
  {
    hide Remembers;
    if FoldsEqual(lower, current) {
      forall e | e in current ensures lower(e) in next && next[lower(e)] == current[e] {
        RememberedIs(lower, current, next, e);
      }
    }
  }

  lemma RememberedIs(lower: string -> string, current: map<string, Usage>, next: map<string, Usage>, e: string)
    requires e in current && Remembers(lower, current, next, e) && FoldsEqual(lower, current)
    ensures lower(e) in next && next[lower(e)] == current[e]
  {
    var f :| f in current && lower(f) == lower(e) && next[lower(e)] == current[f];
    assert current[e] == current[f];
  }

  // ---------- books ----------

  function At(m: map<string, Usage>, address: string): Usage {
    if address in m then m[address] else ZERO
  }

  function Plus(m: map<string, Usage>, address: string, up: int, down: int): map<string, Usage> {
    m[address := Usage(At(m, address).up + up, At(m, address).down + down)]
  }

  /** Adds the deltas of the listed addresses to books filed by `file`. */
  function Credit(file: string -> string, books: map<string, Usage>, deltas: map<string, Usage>, order: seq<string>)
    : map<string, Usage>
    requires forall e | e in order :: e in deltas
    decreases order
  {
    if order == [] then books
    else
      Credit(file, Plus(books, file(order[0]), deltas[order[0]].up, deltas[order[0]].down), deltas, order[1..])
  }

  /** What the listed addresses contribute to one entry of the books. */
  function Share(file: string -> string, deltas: map<string, Usage>, order: seq<string>, a: string): Usage
    requires forall e | e in order :: e in deltas
    decreases order
  {
    if order == [] then ZERO
    else Sum(if file(order[0]) == a then deltas[order[0]] else ZERO, Share(file, deltas, order[1..], a))
  }

  lemma SumZero(x: Usage)
    ensures Sum(x, ZERO) == Sum(ZERO, x) == x
  {
  }

  lemma ShareCons(file: string -> string, deltas: map<string, Usage>, order: seq<string>, a: string)
    requires order != [] && forall e | e in order :: e in deltas
    ensures Share(file, deltas, order, a)
         == Sum(if file(order[0]) == a then deltas[order[0]] else ZERO, Share(file, deltas, order[1..], a))
  {
  }

  lemma CreditCons(file: string -> string, books: map<string, Usage>, deltas: map<string, Usage>, order: seq<string>)
    requires order != [] && forall e | e in order :: e in deltas
    ensures Credit(file, books, deltas, order)
         == Credit(file, Plus(books, file(order[0]), deltas[order[0]].up, deltas[order[0]].down), deltas, order[1..])
  {
  }

  lemma PlusOwn(books: map<string, Usage>, b: string, delta: Usage, a: string)
    ensures At(Plus(books, b, delta.up, delta.down), a) == Sum(At(books, a), if b == a then delta else ZERO)
  {
  }

  lemma SumAssociative(x: Usage, y: Usage, z: Usage)
    ensures Sum(Sum(x, y), z) == Sum(x, Sum(y, z))
  {
  }

  lemma {:induction false} CreditIsShare(file: string -> string, books: map<string, Usage>,
                                         deltas: map<string, Usage>, order: seq<string>, a: string)
    requires forall e | e in order :: e in deltas
    ensures At(Credit(file, books, deltas, order), a) == Sum(At(books, a), Share(file, deltas, order, a))
    decreases order
  {
    if order == [] {
      SumZero(At(books, a));
    } else {
      hide Credit, Plus, At, Share, Sum;
      var e, rest := order[0], order[1..];
      var own := if file(e) == a then deltas[e] else ZERO;
      var books1 := Plus(books, file(e), deltas[e].up, deltas[e].down);
      assert order == [e] + rest;
      ShareCons(file, deltas, order, a);
      CreditCons(file, books, deltas, order);
      PlusOwn(books, file(e), deltas[e], a);
      CreditIsShare(file, books1, deltas, rest, a);
      SumAssociative(At(books, a), own, Share(file, deltas, rest, a));
    }
  }

  function Dropped(order: seq<string>, i: nat): seq<string>
    requires i < |order|
  {
    order[..i] + order[i + 1..]
  }

  lemma {:induction false} ShareWithout(file: string -> string, deltas: map<string, Usage>, order: seq<string>,
                                        i: nat, a: string)
    requires i < |order| && forall e | e in order :: e in deltas
    ensures Share(file, deltas, order, a)
         == Sum(if file(order[i]) == a then deltas[order[i]] else ZERO, Share(file, deltas, Dropped(order, i), a))
    decreases order
  {
    var rest := order[1..];
    if i == 0 {
      assert Dropped(order, i) == rest;
    } else {
      assert Dropped(order, i)[1..] == Dropped(rest, i - 1) && Dropped(order, i)[0] == order[0];
      ShareWithout(file, deltas, rest, i - 1, a);
    }
  }

  /** In which order addresses are listed does not matter to the books. */
  lemma {:induction false} SharePermuted(file: string -> string, deltas: map<string, Usage>, xs: seq<string>,
                                         ys: seq<string>, emails: set<string>, a: string)
    requires IsOrderOf(xs, emails) && IsOrderOf(ys, emails) && emails <= deltas.Keys
    ensures Share(file, deltas, xs, a) == Share(file, deltas, ys, a)
    decreases xs
  {
    if xs == [] {
      HasMember(ys);
    } else {
      var i := PositionOf(ys, emails, xs[0]);
      assert Dropped(xs, 0) == xs[1..];
      assert (forall e | e in xs :: e in deltas) && (forall e | e in ys :: e in deltas);
      OrderWithout(xs, emails, 0);
      OrderWithout(ys, emails, i);
      hide IsOrderOf, Dropped, Share, Sum;
      ShareCons(file, deltas, xs, a);
      ShareWithout(file, deltas, ys, i, a);
      SharePermuted(file, deltas, xs[1..], Dropped(ys, i), emails - {xs[0]}, a);
    }
  }

  lemma PositionOf(order: seq<string>, s: set<string>, x: string) returns (i: nat)
    requires IsOrderOf(order, s) && x in s
    ensures i < |order| && order[i] == x
  {
    i :| 0 <= i < |order| && order[i] == x;
  }

  lemma OrderWithout(order: seq<string>, s: set<string>, i: nat)
    requires IsOrderOf(order, s) && i < |order|
    ensures IsOrderOf(Dropped(order, i), s - {order[i]})
  {
    var fewer := Dropped(order, i);
    forall x ensures x in fewer <==> x in s && x != order[i] {
      if x in s && x != order[i] {
        var j := PositionOf(order, s, x);
        assert x == if j < i then fewer[j] else fewer[j - 1];
      }
    }
  }
}
